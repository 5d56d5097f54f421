/** Bounded in-process publish/subscribe (events/bus.py): a full queue drops its oldest event and raises a
    flag. A queue of size 0 is unbounded, as `asyncio.Queue` has it. */
module EventBus {
  import opened Basics

  /** A subscription's state; `None` in the queue is the end marker. */
  datatype Sub<E> = Sub(queue: seq<Option<E>>, lagged: bool, closed: bool)

  predicate Full<E>(max: nat, s: Sub<E>) { max > 0 && |s.queue| >= max }

  function Offer<E>(max: nat, s: Sub<E>, e: E): Sub<E> {
    if s.closed then s
    else if Full(max, s) then Sub(s.queue[1..] + [Some(e)], true, false)
    else Sub(s.queue + [Some(e)], s.lagged, false)
  }

  /** `close`: the end marker is only put if there is room for it. */
  function Close<E>(max: nat, s: Sub<E>): Sub<E> {
    if s.closed then s
    else Sub(if Full(max, s) then s.queue else s.queue + [None], s.lagged, true)
  }

  function Take<E>(s: Sub<E>): Sub<E>
    requires s.queue != []
  {
    Sub(s.queue[1..], s.lagged, s.closed)
  }

  // -- what any run of a subscription amounts to

  datatype Op<E> = Offered(event: E) | Next | LagTaken | Closing

  /** A subscription with its history: what was offered while it was open, what was handed out, how many
      events were dropped, and how many of those since the flag was last taken. */
  datatype Track<E> = Track(sub: Sub<E>, offered: seq<E>, handed: seq<E>, dropped: nat, unseen: nat)

  function After<E>(max: nat, t: Track<E>, op: Op<E>): Track<E> {
    match op
    case Offered(e) =>
      if t.sub.closed then t
      else
        var lost := if Full(max, t.sub) then 1 else 0;
        Track(Offer(max, t.sub, e), t.offered + [e], t.handed, t.dropped + lost, t.unseen + lost)
    case Next =>
      if t.sub.queue == [] || t.sub.queue[0].None? then t
      else Track(Take(t.sub), t.offered, t.handed + [t.sub.queue[0].value], t.dropped, t.unseen)
    case LagTaken => Track(Sub(t.sub.queue, false, t.sub.closed), t.offered, t.handed, t.dropped, 0)
    case Closing => Track(Close(max, t.sub), t.offered, t.handed, t.dropped, t.unseen)
  }

  function Run<E>(max: nat, ops: seq<Op<E>>): Track<E> {
    if ops == [] then Track(Sub([], false, false), [], [], 0, 0)
    else After(max, Run(max, ops[..|ops| - 1]), ops[|ops| - 1])
  }

  /** The events of a queue, without an end marker. */
  function Events<E>(queue: seq<Option<E>>): (es: seq<E>)
    ensures |es| <= |queue|
  {
    if queue == [] then [] else (if queue[0].Some? then [queue[0].value] else []) + Events(queue[1..])
  }

  lemma {:induction false} EventsAppend<E>(q: seq<Option<E>>, x: Option<E>)
    ensures Events(q + [x]) == Events(q) + if x.Some? then [x.value] else []
  {
    if q != [] {
      EventsAppend(q[1..], x);
      assert (q + [x])[1..] == q[1..] + [x];
    }
  }

  /** An end marker only ever stands last, and only in a closed subscription. */
  ghost predicate MarkerLast<E>(s: Sub<E>) {
    forall i :: 0 <= i < |s.queue| && s.queue[i].None? ==> s.closed && i == |s.queue| - 1
  }

  /** Of everything offered, the newest are queued, and what was handed out before them is in order; the
      rest was dropped. */
  ghost predicate Ledger<E>(queued: seq<E>, offered: seq<E>, handed: seq<E>, dropped: nat) {
    && |queued| <= |offered|
    && queued == offered[|offered| - |queued|..]
    && |handed| + dropped + |queued| == |offered|
    && Subsequence(handed + queued, offered)
  }

  ghost predicate Accounted<E>(max: nat, t: Track<E>) {
    && MarkerLast(t.sub)
    && (max > 0 ==> |t.sub.queue| <= max)
    && (t.sub.lagged <==> t.unseen > 0)
    && (max == 0 ==> t.dropped == 0)
    && Ledger(Events(t.sub.queue), t.offered, t.handed, t.dropped)
  }

  lemma LedgerAppended<E>(queued: seq<E>, offered: seq<E>, handed: seq<E>, dropped: nat, e: E)
    requires Ledger(queued, offered, handed, dropped)
    ensures Ledger(queued + [e], offered + [e], handed, dropped)
  {
    assert handed + (queued + [e]) == handed + queued + [e];
  }

  lemma LedgerDropped<E>(oldest: E, rest: seq<E>, offered: seq<E>, handed: seq<E>, dropped: nat)
    requires Ledger([oldest] + rest, offered, handed, dropped)
    ensures Ledger(rest, offered, handed, dropped + 1)
  {
    assert handed + ([oldest] + rest) == handed + [oldest] + rest;
    assert rest == ([oldest] + rest)[1..];
    SubsequenceDrop(handed, oldest, rest, offered);
  }

  lemma LedgerTaken<E>(oldest: E, rest: seq<E>, offered: seq<E>, handed: seq<E>, dropped: nat)
    requires Ledger([oldest] + rest, offered, handed, dropped)
    ensures Ledger(rest, offered, handed + [oldest], dropped)
  {
    assert handed + ([oldest] + rest) == handed + [oldest] + rest;
    assert rest == ([oldest] + rest)[1..];
  }

  lemma OfferKeeps<E>(max: nat, t: Track<E>, e: E)
    requires Accounted(max, t) && !t.sub.closed
    ensures Accounted(max, After(max, t, Offered(e)))
  {
    var q := t.sub.queue;
    if Full(max, t.sub) {
      LedgerDropped(q[0].value, Events(q[1..]), t.offered, t.handed, t.dropped);
      LedgerAppended(Events(q[1..]), t.offered, t.handed, t.dropped + 1, e);
      EventsAppend(q[1..], Some(e));
    } else {
      LedgerAppended(Events(q), t.offered, t.handed, t.dropped, e);
      EventsAppend(q, Some(e));
    }
  }

  lemma TakeKeeps<E>(max: nat, t: Track<E>)
    requires Accounted(max, t)
    ensures Accounted(max, After(max, t, Next))
  {
    var q := t.sub.queue;
    if q != [] && q[0].Some? {
      LedgerTaken(q[0].value, Events(q[1..]), t.offered, t.handed, t.dropped);
    }
  }

  lemma CloseKeeps<E>(max: nat, t: Track<E>)
    requires Accounted(max, t)
    ensures Accounted(max, After(max, t, Closing))
  {
    EventsAppend(t.sub.queue, None);
    assert Events(t.sub.queue) + [] == Events(t.sub.queue);
  }

  /** For every run: what is queued is exactly the newest events offered; nothing is handed out twice, out of
      order or out of nothing; every offer is handed out, queued or dropped; and the flag is up exactly when
      something was dropped since it was last taken. Without a bound nothing is ever dropped. */
  lemma {:induction false} RunIsAccounted<E>(max: nat, ops: seq<Op<E>>)
    ensures Accounted(max, Run(max, ops))
  {
    if ops != [] {
      var t, op := Run(max, ops[..|ops| - 1]), ops[|ops| - 1];
      RunIsAccounted(max, ops[..|ops| - 1]);
      if op.Offered? && !t.sub.closed { OfferKeeps(max, t, op.event); }
      if op.Next? { TakeKeeps(max, t); }
      if op.Closing? { CloseKeeps(max, t); }
    } else {
      assert [] + Events<E>([]) == [];
    }
  }

  /** What a consumer that only reads gets from a queue: the events up to the end marker, and whether it
      learns of the end at all. */
  function Drain<E>(queue: seq<Option<E>>): (seq<E>, bool) {
    if queue == [] then ([], false)
    else if queue[0].None? then ([], true)
    else var (es, ended) := Drain(queue[1..]); ([queue[0].value] + es, ended)
  }

  lemma {:induction false} DrainMarked<E>(q: seq<Option<E>>)
    requires forall i :: 0 <= i < |q| ==> q[i].Some?
    ensures Drain(q) == (Events(q), false) && Drain(q + [None]) == (Events(q), true)
  {
    if q != [] {
      DrainMarked(q[1..]);
      assert (q + [None])[1..] == q[1..] + [None];
    }
  }

  /** Closing: every queued event is still handed out, nothing offered later is, and the iterator ends if
      and only if the queue was not full when the subscription was closed. */
  lemma CloseEndsIff<E>(max: nat, t: Track<E>, later: E)
    requires Accounted(max, t) && !t.sub.closed
    ensures var shut := Close(max, t.sub);
            && Drain(shut.queue) == (Events(t.sub.queue), !Full(max, t.sub))
            && Offer(max, shut, later) == shut && Close(max, shut) == shut
  {
    DrainMarked(t.sub.queue);
  }

  function Offers<E>(e: E, n: nat): seq<Op<E>> {
    if n == 0 then [] else Offers(e, n - 1) + [Offered(e)]
  }

  lemma {:induction false} OffersFill<E>(max: nat, e: E, n: nat)
    requires n <= max
    ensures var s := Run(max, Offers(e, n)).sub; !s.closed && |s.queue| == n
  {
    if n > 0 {
      OffersFill(max, e, n - 1);
      assert Offers(e, n)[..n - 1] == Offers(e, n - 1) by { OffersCount(e, n - 1); }
      OffersCount(e, n);
    }
  }

  lemma {:induction false} OffersCount<E>(e: E, n: nat)
    ensures |Offers(e, n)| == n
  {
    if n > 0 { OffersCount(e, n - 1); }
  }

  /** It happens: with any bound, a reader that takes nothing while the queue fills never learns that its
      subscription was closed. */
  lemma FullCloseHappens<E>(max: nat, e: E)
    requires max > 0
    ensures var s := Run(max, Offers(e, max) + [Closing]).sub;
            s.closed && |Drain(s.queue).0| == max && !Drain(s.queue).1
  {
    var ops := Offers(e, max);
    OffersFill(max, e, max);
    RunIsAccounted(max, ops);
    assert (ops + [Closing])[..|ops|] == ops;
    CloseEndsIff(max, Run(max, ops), e);
    AllEvents(Run(max, ops).sub.queue);
  }

  lemma {:induction false} AllEvents<E>(q: seq<Option<E>>)
    requires forall i :: 0 <= i < |q| ==> q[i].Some?
    ensures |Events(q)| == |q|
  {
    if q != [] { AllEvents(q[1..]); }
  }

  // -- the objects

  class Subscription<E(!new)> {
    const bus: Bus<E>
    const maxsize: nat
    var queue: seq<Option<E>>
    var lagged: bool
    var closed: bool

    function Value(): Sub<E>
      reads this
    {
      Sub(queue, lagged, closed)
    }

    constructor (bus: Bus<E>, maxsize: nat)
      ensures this.bus == bus && this.maxsize == maxsize && Value() == Sub([], false, false)
    {
      this.bus, this.maxsize := bus, maxsize;
      queue, lagged, closed := [], false, false;
    }

    method TakeLagged() returns (was: bool)
      modifies this`lagged
      ensures was == old(lagged) && !lagged
    {
      was, lagged := lagged, false;
    }

    method OfferEvent(e: E)
      modifies this
      ensures Value() == Offer(maxsize, old(Value()), e)
    {
      if closed {
        return;
      }
      if maxsize > 0 && |queue| >= maxsize {
        lagged := true;
        queue := queue[1..];
      }
      queue := queue + [Some(e)];
    }

    /** `__anext__` once something is queued; an end marker ends the iterator. */
    method TakeNext() returns (e: Option<E>)
      requires queue != []
      modifies this`queue
      ensures Value() == Take(old(Value())) && e == old(queue)[0]
    {
      e, queue := queue[0], queue[1..];
    }

    method CloseNow()
      modifies this, bus
      ensures Value() == Close(maxsize, old(Value()))
      ensures bus.subscribers == if old(closed) then old(bus.subscribers) else Removed(old(bus.subscribers), this)
      ensures old(bus.Valid()) ==> bus.Valid() && (!old(closed) ==> this !in bus.subscribers)
    {
      if closed {
        return;
      }
      closed := true;
      bus.Unsubscribe(this);
      if !(maxsize > 0 && |queue| >= maxsize) {
        queue := queue + [None];
      }
    }
  }

  /** `list.remove`, where a missing element is no error. */
  function Removed<T(==)>(s: seq<T>, x: T): (r: seq<T>)
    ensures forall y :: y in r ==> y in s
  {
    if s == [] then [] else if s[0] == x then s[1..] else [s[0]] + Removed(s[1..], x)
  }

  lemma {:induction false} RemovedFromDistinct<T>(s: seq<T>, x: T)
    requires forall i, j :: 0 <= i < j < |s| ==> s[i] != s[j]
    ensures forall y :: y in Removed(s, x) <==> y in s && y != x
    ensures forall i, j :: 0 <= i < j < |Removed(s, x)| ==> Removed(s, x)[i] != Removed(s, x)[j]
  {
    if s != [] && s[0] != x {
      RemovedFromDistinct(s[1..], x);
      var rest := Removed(s[1..], x);
      assert forall j :: 0 <= j < |rest| ==> rest[j] in s[1..];
    }
  }

  lemma {:induction false} RemovedAbsent<T>(s: seq<T>, x: T)
    requires x !in s
    ensures Removed(s, x) == s
  {
    if s != [] { RemovedAbsent(s[1..], x); }
  }

  lemma {:induction false} RemovedAt<T>(s: seq<T>, i: nat, x: T)
    requires i < |s| && s[i] == x && x !in s[..i]
    ensures Removed(s, x) == s[..i] + s[i + 1..]
  {
    if i > 0 {
      assert s[0] == s[..i][0] && s[1..][..i - 1] == s[..i][1..];
      RemovedAt(s[1..], i - 1, x);
    }
  }

  class Bus<E(!new)> {
    const queueSize: nat
    var subscribers: seq<Subscription<E>>

    ghost predicate Valid()
      reads this
    {
      && (forall i, j :: 0 <= i < j < |subscribers| ==> subscribers[i] != subscribers[j])
      && (forall s :: s in subscribers ==> s.maxsize == queueSize)
    }

    constructor (queueSize: nat)
      ensures this.queueSize == queueSize && subscribers == [] && Valid()
    {
      this.queueSize := queueSize;
      subscribers := [];
    }

    method Subscribe() returns (s: Subscription<E>)
      requires Valid()
      modifies this
      ensures Valid() && fresh(s) && s.bus == this && s.Value() == Sub([], false, false)
      ensures subscribers == old(subscribers) + [s]
    {
      s := new Subscription(this, queueSize);
      subscribers := subscribers + [s];
    }

    /** `unsubscribe`: the bus stays fit for publishing, and no longer knows the subscriber. */
    method Unsubscribe(s: Subscription<E>)
      modifies this
      ensures subscribers == Removed(old(subscribers), s)
      ensures s !in old(subscribers) ==> subscribers == old(subscribers)
      ensures old(Valid()) ==> Valid() && s !in subscribers
    {
      ghost var before := subscribers;
      if s !in before { RemovedAbsent(before, s); }
      if Valid() { RemovedFromDistinct(before, s); }
      Drop(s);
    }

    /** `list.remove`. */
    method Drop(s: Subscription<E>)
      modifies this
      ensures subscribers == Removed(old(subscribers), s)
    {
      var i := 0;
      while i < |subscribers|
        invariant i <= |subscribers| && subscribers == old(subscribers)
        invariant s !in subscribers[..i]
      {
        if subscribers[i] == s {
          RemovedAt(subscribers, i, s);
          subscribers := subscribers[..i] + subscribers[i + 1..];
          return;
        }
        i := i + 1;
      }
      RemovedAbsent(subscribers, s);
    }

    /** `publish`: every live subscriber is offered the event, once, and nothing waits. */
    method Publish(e: E)
      requires Valid()
      modifies subscribers
      ensures subscribers == old(subscribers) && Valid()
      ensures forall s :: s in subscribers ==> s.Value() == Offer(queueSize, old(s.Value()), e)
    {
      for i := 0 to |subscribers|
        invariant forall k :: 0 <= k < i ==> subscribers[k].Value() == Offer(queueSize, old(subscribers[k].Value()), e)
        invariant forall k :: i <= k < |subscribers| ==> subscribers[k].Value() == old(subscribers[k].Value())
      {
        subscribers[i].OfferEvent(e);
      }
    }
  }
}
