/** Latest-wins command coalescing in the web client (apps/web/js/app.js, `execute`). A step is what runs
    between two awaits: a request by the user, or the continuation of a submission that has returned. */
module Coalescer {
  import opened Basics
  import opened Policy

  datatype Key = Key(device: int, action: Action)

  /** The history: what was asked, submitted and answered, and when a key went idle. */
  datatype Entry =
    | Asked(key: Key, params: Params)
    | Submitted(key: Key, params: Params)
    | Returned(key: Key)
    | Settled(key: Key)

  datatype State = State(busy: set<Key>, queued: map<Key, Params>, desired: map<Key, bool>, log: seq<Entry>)

  /** An on/off request is what the control shows while it is pending. */
  function Wish(desired: map<Key, bool>, key: Key, params: Params): map<Key, bool> {
    if params.OnOff? then desired[key := params.on] else desired
  }

  /** `execute`, up to the submission: while the key is busy only the last request is kept. */
  function Start(s: State, key: Key, params: Params): State {
    var desired := Wish(s.desired, key, params);
    if key in s.busy then State(s.busy, s.queued[key := params], desired, s.log)
    else State(s.busy + {key}, s.queued, desired, s.log + [Submitted(key, params)])
  }

  function Ask(s: State, key: Key, params: Params): State {
    Start(s.(log := s.log + [Asked(key, params)]), key, params)
  }

  /** The continuation, whatever the answer was: a waiting request goes out at once, otherwise the confirmed
      state is shown again. */
  function Answered(s: State, key: Key): State {
    if key !in s.busy then s
    else
      var log := s.log + [Returned(key)];
      if key in s.queued then Start(State(s.busy - {key}, s.queued - {key}, s.desired, log), key, s.queued[key])
      else State(s.busy - {key}, s.queued, s.desired - {key}, log + [Settled(key)])
  }

  datatype Step = Tap(key: Key, params: Params) | Answer(key: Key)

  function After(s: State, step: Step): State {
    match step
    case Tap(key, params) => Ask(s, key, params)
    case Answer(key) => Answered(s, key)
  }

  function Run(steps: seq<Step>): State {
    if steps == [] then State({}, map[], map[], []) else After(Run(steps[..|steps| - 1]), steps[|steps| - 1])
  }

  // -- the history of one key

  function AskedOf(log: seq<Entry>, k: Key): seq<Params> {
    if log == [] then []
    else
      var last := log[|log| - 1];
      AskedOf(log[..|log| - 1], k) + if last.Asked? && last.key == k then [last.params] else []
  }

  function SubmittedOf(log: seq<Entry>, k: Key): seq<Params> {
    if log == [] then []
    else
      var last := log[|log| - 1];
      SubmittedOf(log[..|log| - 1], k) + if last.Submitted? && last.key == k then [last.params] else []
  }

  /** Submissions of `k` out and not yet answered. */
  function InFlight(log: seq<Entry>, k: Key): int {
    if log == [] then 0
    else
      var last := log[|log| - 1];
      InFlight(log[..|log| - 1], k)
      + if last.key != k then 0 else if last.Submitted? then 1 else if last.Returned? then -1 else 0
  }

  /** The last on/off asked for since `k` was last idle. */
  function LastWish(log: seq<Entry>, k: Key): Option<bool> {
    if log == [] then None
    else
      var last := log[|log| - 1];
      if last.key == k && last.Settled? then None
      else if last.key == k && last.Asked? && last.params.OnOff? then Some(last.params.on)
      else LastWish(log[..|log| - 1], k)
  }

  /** At no moment more than one submission of `k` is out. */
  ghost predicate NeverTwo(log: seq<Entry>, k: Key) {
    forall n :: 0 <= n <= |log| ==> 0 <= InFlight(log[..n], k) <= 1
  }

  lemma LogStep(log: seq<Entry>, e: Entry, k: Key)
    ensures AskedOf(log + [e], k) == AskedOf(log, k) + if e.Asked? && e.key == k then [e.params] else []
    ensures SubmittedOf(log + [e], k) == SubmittedOf(log, k) + if e.Submitted? && e.key == k then [e.params] else []
    ensures InFlight(log + [e], k)
            == InFlight(log, k) + if e.key != k then 0 else if e.Submitted? then 1 else if e.Returned? then -1 else 0
    ensures LastWish(log + [e], k)
            == if e.key == k && e.Settled? then None
               else if e.key == k && e.Asked? && e.params.OnOff? then Some(e.params.on)
               else LastWish(log, k)
    ensures NeverTwo(log, k) && 0 <= InFlight(log + [e], k) <= 1 ==> NeverTwo(log + [e], k)
  {
    assert (log + [e])[..|log|] == log;
    if NeverTwo(log, k) && 0 <= InFlight(log + [e], k) <= 1 {
      forall n | 0 <= n <= |log| + 1 ensures 0 <= InFlight((log + [e])[..n], k) <= 1 {
        if n <= |log| {
          assert (log + [e])[..n] == log[..n];
        } else {
          assert (log + [e])[..n] == log + [e];
        }
      }
    }
  }

  function Last<T>(s: seq<T>): Option<T> { if s == [] then None else Some(s[|s| - 1]) }

  /** What holds of every key between steps. */
  ghost predicate KeyInv(s: State, k: Key) {
    && NeverTwo(s.log, k)
    && InFlight(s.log, k) == (if k in s.busy then 1 else 0)
    && (k in s.queued ==> k in s.busy)
    && (if k in s.queued then
          && Last(AskedOf(s.log, k)) == Some(s.queued[k])
          && Subsequence(SubmittedOf(s.log, k) + [s.queued[k]], AskedOf(s.log, k))
        else
          && Last(SubmittedOf(s.log, k)) == Last(AskedOf(s.log, k))
          && Subsequence(SubmittedOf(s.log, k), AskedOf(s.log, k)))
    && (k in s.queued && s.queued[k].OnOff? ==> k in s.desired && s.desired[k] == s.queued[k].on)
    && (k in s.busy ==> LastWish(s.log, k) == if k in s.desired then Some(s.desired[k]) else None)
    && (k !in s.busy ==> k !in s.desired && LastWish(s.log, k) == None)
  }

  /** Leaving out the last element of a subsequence. */
  lemma SubsequenceInit<T>(a: seq<T>, x: T, b: seq<T>)
    requires Subsequence(a + [x], b)
    ensures Subsequence(a, b)
  {
    assert a + [x] + [] == a + [x] && a + [] == a;
    SubsequenceDrop(a, x, [], b);
  }

  /** What happens to one key is not in the history of another. */
  lemma OtherEntry(log: seq<Entry>, e: Entry, k: Key)
    requires e.key != k
    ensures AskedOf(log + [e], k) == AskedOf(log, k) && SubmittedOf(log + [e], k) == SubmittedOf(log, k)
    ensures InFlight(log + [e], k) == InFlight(log, k) && LastWish(log + [e], k) == LastWish(log, k)
    ensures NeverTwo(log, k) ==> NeverTwo(log + [e], k)
  {
    LogStep(log, e, k);
    if NeverTwo(log, k) { assert log[..|log|] == log; }
  }

  lemma OtherTapped(s: State, key: Key, params: Params, k: Key)
    requires KeyInv(s, k) && key != k
    ensures KeyInv(Ask(s, key, params), k)
  {
    OtherEntry(s.log, Asked(key, params), k);
    OtherEntry(s.log + [Asked(key, params)], Submitted(key, params), k);
  }

  lemma OtherAnswered(s: State, key: Key, k: Key)
    requires KeyInv(s, k) && key != k
    ensures KeyInv(Answered(s, key), k)
  {
    if key in s.busy {
      OtherEntry(s.log, Returned(key), k);
      OtherEntry(s.log + [Returned(key)], if key in s.queued then Submitted(key, s.queued[key]) else Settled(key), k);
    }
  }

  lemma AskBusy(s: State, k: Key, params: Params)
    requires KeyInv(s, k) && k in s.busy
    ensures KeyInv(Ask(s, k, params), k)
  {
    LogStep(s.log, Asked(k, params), k);
    var sent, asked := SubmittedOf(s.log, k), AskedOf(s.log, k);
    if k in s.queued { SubsequenceInit(sent, s.queued[k], asked); }
    assert sent + [] == sent;
  }

  lemma AskIdle(s: State, k: Key, params: Params)
    requires KeyInv(s, k) && k !in s.busy
    ensures KeyInv(Ask(s, k, params), k)
  {
    LogStep(s.log, Asked(k, params), k);
    LogStep(s.log + [Asked(k, params)], Submitted(k, params), k);
    var sent, asked := SubmittedOf(s.log, k), AskedOf(s.log, k);
    assert sent + [] == sent && asked + [params] + [] == asked + [params];
  }

  lemma AnswerQueued(s: State, k: Key)
    requires KeyInv(s, k) && k in s.queued
    ensures KeyInv(Answered(s, k), k)
  {
    var p := s.queued[k];
    LogStep(s.log, Returned(k), k);
    LogStep(s.log + [Returned(k)], Submitted(k, p), k);
    var sent, asked := SubmittedOf(s.log, k), AskedOf(s.log, k);
    assert sent + [] + [p] == sent + [p] && asked + [] + [] == asked;
  }

  lemma AnswerLast(s: State, k: Key)
    requires KeyInv(s, k) && k in s.busy && k !in s.queued
    ensures KeyInv(Answered(s, k), k)
  {
    LogStep(s.log, Returned(k), k);
    LogStep(s.log + [Returned(k)], Settled(k), k);
    var sent, asked := SubmittedOf(s.log, k), AskedOf(s.log, k);
    assert sent + [] + [] == sent && asked + [] + [] == asked;
  }

  lemma StepKeeps(s: State, step: Step, k: Key)
    requires KeyInv(s, k)
    ensures KeyInv(After(s, step), k)
  {
    match step
    case Tap(key, params) =>
      if key != k { OtherTapped(s, key, params, k); }
      else if k in s.busy { AskBusy(s, k, params); }
      else { AskIdle(s, k, params); }
    case Answer(key) =>
      if key != k { OtherAnswered(s, key, k); }
      else if k in s.queued { AnswerQueued(s, k); }
      else if k in s.busy { AnswerLast(s, k); }
  }

  lemma {:induction false} RunKeeps(steps: seq<Step>, k: Key)
    ensures KeyInv(Run(steps), k)
  {
    if steps != [] {
      RunKeeps(steps[..|steps| - 1], k);
      StepKeeps(Run(steps[..|steps| - 1]), steps[|steps| - 1], k);
    }
  }

  // -- the laws, for every key and every run

  /** Submissions of a key never overlap, and are some of its requests, in the order asked. */
  lemma NeverOverlap(steps: seq<Step>, k: Key)
    ensures NeverTwo(Run(steps).log, k)
    ensures Subsequence(SubmittedOf(Run(steps).log, k), AskedOf(Run(steps).log, k))
  {
    RunKeeps(steps, k);
    var s := Run(steps);
    if k in s.queued { SubsequenceInit(SubmittedOf(s.log, k), s.queued[k], AskedOf(s.log, k)); }
  }

  /** Latest wins: when a key is idle, the last thing submitted is the last thing asked for; while it is busy,
      the last thing asked for is either on its way or waiting. */
  lemma LatestWins(steps: seq<Step>, k: Key)
    ensures var s := Run(steps);
            && (k in s.busy <==> InFlight(s.log, k) == 1)
            && (k in s.queued ==> k in s.busy)
            && Last(AskedOf(s.log, k)) == (if k in s.queued then Some(s.queued[k]) else Last(SubmittedOf(s.log, k)))
  {
    RunKeeps(steps, k);
  }

  /** What the control shows while pending is exactly the last on/off asked for since the key was idle, and an
      idle key shows nothing of its own. */
  lemma ShownIsLastWish(steps: seq<Step>, k: Key)
    ensures var s := Run(steps);
            && LastWish(s.log, k) == (if k in s.desired then Some(s.desired[k]) else None)
            && (k in s.desired ==> k in s.busy)
  {
    RunKeeps(steps, k);
  }

  /** One answer: nothing is asked, nothing waits any more, and the key is busy only if something waited. */
  lemma AnswerOnce(s: State, k: Key)
    requires KeyInv(s, k)
    ensures var s' := Answered(s, k);
            && AskedOf(s'.log, k) == AskedOf(s.log, k)
            && k !in s'.queued && (k in s'.busy <==> k in s.queued)
  {
    if k in s.busy {
      LogStep(s.log, Returned(k), k);
      LogStep(s.log + [Returned(k)], if k in s.queued then Submitted(k, s.queued[k]) else Settled(k), k);
    }
  }

  /** Once the user stops, one more answer for each of the (at most two) outstanding requests leaves the key
      idle with the last request submitted. */
  lemma SettlesInTwo(steps: seq<Step>, k: Key)
    ensures var s := Run(steps + [Answer(k), Answer(k)]);
            k !in s.busy && Last(SubmittedOf(s.log, k)) == Last(AskedOf(Run(steps).log, k))
  {
    var one, two := steps + [Answer(k)], steps + [Answer(k), Answer(k)];
    assert one[..|steps|] == steps && two[..|one|] == one;
    RunKeeps(steps, k);
    AnswerOnce(Run(steps), k);
    RunKeeps(one, k);
    AnswerOnce(Run(one), k);
    LatestWins(two, k);
  }

  // -- the object

  class Page {
    var busy: set<Key>
    var queued: map<Key, Params>
    var desired: map<Key, bool>
    var log: seq<Entry>

    function Value(): State
      reads this
    {
      State(busy, queued, desired, log)
    }

    constructor ()
      ensures Value() == Run([])
    {
      busy, queued, desired, log := {}, map[], map[], [];
    }

    /** `execute` up to its first await. */
    method Execute(key: Key, params: Params)
      modifies this
      ensures Value() == Start(old(Value()), key, params)
    {
      if params.OnOff? {
        desired := desired[key := params.on];
      }
      if key in busy {
        queued := queued[key := params];
        return;
      }
      busy := busy + {key};
      log := log + [Submitted(key, params)];
    }

    method Press(key: Key, params: Params)
      modifies this
      ensures Value() == Ask(old(Value()), key, params)
    {
      log := log + [Asked(key, params)];
      Execute(key, params);
    }

    /** `execute` after the submission returned. */
    method Resume(key: Key)
      modifies this
      ensures Value() == Answered(old(Value()), key)
    {
      if key !in busy {
        return;
      }
      busy := busy - {key};
      log := log + [Returned(key)];
      if key in queued {
        var next := queued[key];
        queued := queued - {key};
        Execute(key, next);
        return;
      }
      desired := desired - {key};
      log := log + [Settled(key)];
    }
  }
}
