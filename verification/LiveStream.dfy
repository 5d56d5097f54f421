/** One live connection (api/v1/ws.py): the forwarder between a bounded subscription and a socket. A step is
    what runs between two awaits. The point: a client can miss events, but never without being told. */
module LiveStream {
  import opened Basics
  import opened EventBus
  import opened Devices
  import DM = DeviceModel

  /** A published event: its place in the publish order since this client subscribed, and the device it
      is about. */
  datatype Event = Event(position: nat, device: Option<int>)

  /** What a client can see of a device's condition. */
  datatype View = View(availability: DM.Availability, state: DM.DeviceState)

  function ViewOf(g: Registry, d: int): Option<View> {
    if d in g.devices then Some(View(g.devices[d].availability, g.devices[d].state)) else None
  }

  /** The history of a connection: changes of devices, and what was sent. A frame carries the view its
      device has when it is sent; a resync makes the client refetch, here recorded with the registry then. */
  datatype Entry =
    | Changed(device: int)
    | Sent(event: Event, view: Option<View>)
    | Resync(registry: Registry)
    | Ping

  /** Waiting for an event; or having sent a resync and still owing the event's frame; or done. */
  datatype Forwarder = Idle | Owing(event: Event) | Stopped

  datatype Socket = Socket(g: Registry, sub: Sub<Event>, next: nat, forwarder: Forwarder, log: seq<Entry>)

  datatype Step =
    | Observed(ref: Ref, o: Observation, source: Source, now: real)
    | Discovered(id: int, ref: Ref, kind: Kind, o: Observation)
    | OtherEvent(device: Option<int>)
    | Deliver | Finish | Heartbeat | PeerGone | Shut

  // -- the steps

  function Publish(max: nat, s: Socket, device: Option<int>): Socket {
    Socket(s.g, Offer(max, s.sub, Event(s.next, device)), s.next + 1, s.forwarder, s.log)
  }

  function PublishAbout(max: nat, s: Socket, id: int, n: nat): Socket {
    if n == 0 then s else Publish(max, PublishAbout(max, s, id, n - 1), Some(id))
  }

  function Held(s: Socket, g: Registry, id: int): Socket {
    Socket(g, s.sub, s.next, s.forwarder, s.log + [Changed(id)])
  }

  /** `ingest`: the registry is updated and every transition published in one step. */
  function OnObserved(max: nat, s: Socket, ref: Ref, o: Observation, source: Source, now: real): Socket {
    var (g, es) := Ingest(s.g, ref, o, source, now);
    if es == [] then Socket(g, s.sub, s.next, s.forwarder, s.log)
    else PublishAbout(max, Held(s, g, s.g.idByRef[ref]), s.g.idByRef[ref], |es|)
  }

  function OnDiscovered(max: nat, s: Socket, id: int, ref: Ref, kind: Kind, o: Observation): Socket {
    PublishAbout(max, Held(s, Registered(s.g, id, ref, kind, o), id), id, 1)
  }

  /** `_frame`, read from the registry as it is sent. */
  function FrameOf(s: Socket, e: Event): Entry {
    Sent(e, if e.device.Some? then ViewOf(s.g, e.device.value) else None)
  }

  /** Take the next event; if any were dropped say so first, and only then send its frame. */
  function OnDeliver(s: Socket): Socket {
    if s.forwarder != Idle || s.sub.queue == [] then s
    else if s.sub.queue[0].None? then Socket(s.g, Take(s.sub), s.next, Stopped, s.log)
    else
      var e, rest := s.sub.queue[0].value, s.sub.queue[1..];
      if s.sub.lagged then Socket(s.g, Sub(rest, false, s.sub.closed), s.next, Owing(e), s.log + [Resync(s.g)])
      else Socket(s.g, Take(s.sub), s.next, Idle, s.log + [FrameOf(s, e)])
  }

  function OnFinish(s: Socket): Socket {
    if !s.forwarder.Owing? then s
    else Socket(s.g, s.sub, s.next, Idle, s.log + [FrameOf(s, s.forwarder.event)])
  }

  function After(max: nat, s: Socket, step: Step): Socket {
    match step
    case Observed(ref, o, source, now) => OnObserved(max, s, ref, o, source, now)
    case Discovered(id, ref, kind, o) => OnDiscovered(max, s, id, ref, kind, o)
    case OtherEvent(device) => Publish(max, s, device)
    case Deliver => OnDeliver(s)
    case Finish => OnFinish(s)
    case Heartbeat => if s.forwarder == Idle then s.(log := s.log + [Ping]) else s
    case PeerGone => s.(forwarder := Stopped)
    case Shut => s.(sub := Close(max, s.sub))
  }

  function Run(max: nat, g: Registry, steps: seq<Step>): Socket {
    if steps == [] then Socket(g, Sub([], false, false), 0, Idle, [])
    else After(max, Run(max, g, steps[..|steps| - 1]), steps[|steps| - 1])
  }

  // -- order: frames increase, and every gap is announced

  /** One past the position of the last frame sent. */
  function Frontier(log: seq<Entry>): nat {
    if log == [] then 0
    else if log[|log| - 1].Sent? then log[|log| - 1].event.position + 1
    else Frontier(log[..|log| - 1])
  }

  /** Was a resync sent after the last frame? */
  predicate ResyncSince(log: seq<Entry>) {
    log != [] && !log[|log| - 1].Sent? && (log[|log| - 1].Resync? || ResyncSince(log[..|log| - 1]))
  }

  predicate Orderly(log: seq<Entry>) {
    log == [] || (
      && Orderly(log[..|log| - 1])
      && (log[|log| - 1].Sent? ==> InOrder(log[..|log| - 1], log[|log| - 1].event.position)))
  }

  /** Position `p` may follow `log`: never backwards, and past a gap exactly if a resync announced it. */
  predicate InOrder(log: seq<Entry>, p: nat) {
    Frontier(log) <= p && (Frontier(log) < p <==> ResyncSince(log))
  }

  /** One past the last event taken off the queue. */
  function Taken(s: Socket): nat {
    if s.forwarder.Owing? then s.forwarder.event.position + 1 else Frontier(s.log)
  }

  ghost predicate Consecutive(s: Socket) {
    && MarkerLast(s.sub)
    && (forall i :: 0 <= i < |s.sub.queue| && s.sub.queue[i].Some? ==>
          s.sub.queue[0].Some? && s.sub.queue[i].value.position == s.sub.queue[0].value.position + i)
    && (!s.sub.closed ==> forall i :: 0 <= i < |s.sub.queue| ==> s.sub.queue[i].Some?)
    && (!s.sub.closed && s.sub.queue != [] ==> s.sub.queue[0].value.position + |s.sub.queue| == s.next)
  }

  /** The lag flag is up exactly when the head of the queue does not follow on what was taken last. */
  ghost predicate LagIsGap(s: Socket) {
    if s.sub.queue != [] && s.sub.queue[0].Some? then
      Taken(s) <= s.sub.queue[0].value.position && (s.sub.lagged <==> Taken(s) < s.sub.queue[0].value.position)
    else !s.sub.lagged && (!s.sub.closed ==> Taken(s) == s.next)
  }

  ghost predicate OrderInv(s: Socket) {
    && Orderly(s.log)
    && (s.forwarder == Idle ==> !ResyncSince(s.log))
    && (s.forwarder.Owing? ==> ResyncSince(s.log) && Frontier(s.log) < s.forwarder.event.position)
    && (s.forwarder != Stopped ==> Consecutive(s) && LagIsGap(s))
  }

  lemma LogStep(log: seq<Entry>, e: Entry)
    ensures Frontier(log + [e]) == if e.Sent? then e.event.position + 1 else Frontier(log)
    ensures ResyncSince(log + [e]) == (!e.Sent? && (e.Resync? || ResyncSince(log)))
    ensures Orderly(log + [e]) == (Orderly(log) && (e.Sent? ==> InOrder(log, e.event.position)))
  {
    assert (log + [e])[..|log|] == log;
  }

  lemma PublishInOrder(max: nat, s: Socket, device: Option<int>)
    requires OrderInv(s)
    ensures OrderInv(Publish(max, s, device))
  {
  }

  lemma {:induction false} PublishAboutInOrder(max: nat, s: Socket, id: int, n: nat)
    requires OrderInv(s)
    ensures OrderInv(PublishAbout(max, s, id, n))
  {
    if n > 0 {
      PublishAboutInOrder(max, s, id, n - 1);
      PublishInOrder(max, PublishAbout(max, s, id, n - 1), Some(id));
    }
  }

  lemma HeldInOrder(s: Socket, g: Registry, id: int)
    requires OrderInv(s)
    ensures OrderInv(Held(s, g, id))
  {
    LogStep(s.log, Changed(id));
  }

  /** With its head taken a queue is still consecutive, and what comes next is one position on. */
  lemma HeadTaken(s: Socket, t: Socket)
    requires Consecutive(s) && s.sub.queue != [] && s.sub.queue[0].Some?
    requires t.sub.queue == s.sub.queue[1..] && t.sub.closed == s.sub.closed && t.next == s.next
    ensures Consecutive(t)
    ensures t.sub.queue != [] && t.sub.queue[0].Some? ==>
              t.sub.queue[0].value.position == s.sub.queue[0].value.position + 1
    ensures t.sub.queue == [] && !t.sub.closed ==> s.sub.queue[0].value.position + 1 == t.next
  {
    var q, r := s.sub.queue, t.sub.queue;
    assert forall i :: 0 <= i < |r| ==> r[i] == q[i + 1];
  }

  lemma DeliverInOrder(s: Socket)
    requires OrderInv(s) && s.forwarder == Idle && s.sub.queue != [] && s.sub.queue[0].Some?
    ensures OrderInv(OnDeliver(s))
  {
    var e := s.sub.queue[0].value;
    LogStep(s.log, if s.sub.lagged then Resync(s.g) else FrameOf(s, e));
    HeadTaken(s, OnDeliver(s));
    assert Taken(OnDeliver(s)) == e.position + 1;
  }

  lemma FinishInOrder(s: Socket)
    requires OrderInv(s)
    ensures OrderInv(OnFinish(s))
  {
    if s.forwarder.Owing? { LogStep(s.log, FrameOf(s, s.forwarder.event)); }
  }

  lemma ShutInOrder(max: nat, s: Socket)
    requires OrderInv(s)
    ensures OrderInv(s.(sub := Close(max, s.sub)))
  {
    var q, r := s.sub.queue, Close(max, s.sub).queue;
    assert forall i :: 0 <= i < |q| ==> r[i] == q[i];
  }

  lemma StepInOrder(max: nat, s: Socket, step: Step)
    requires OrderInv(s)
    ensures OrderInv(After(max, s, step))
  {
    match step
    case Observed(ref, o, source, now) =>
      var (g, es) := Ingest(s.g, ref, o, source, now);
      if es != [] {
        HeldInOrder(s, g, s.g.idByRef[ref]);
        PublishAboutInOrder(max, Held(s, g, s.g.idByRef[ref]), s.g.idByRef[ref], |es|);
      }
    case Discovered(id, ref, kind, o) =>
      HeldInOrder(s, Registered(s.g, id, ref, kind, o), id);
      PublishAboutInOrder(max, Held(s, Registered(s.g, id, ref, kind, o), id), id, 1);
    case OtherEvent(device) => PublishInOrder(max, s, device);
    case Deliver => if s.forwarder == Idle && s.sub.queue != [] && s.sub.queue[0].Some? { DeliverInOrder(s); }
    case Finish => FinishInOrder(s);
    case Heartbeat => LogStep(s.log, Ping);
    case PeerGone =>
    case Shut => ShutInOrder(max, s);
  }

  lemma {:induction false} RunInOrder(max: nat, g: Registry, steps: seq<Step>)
    ensures OrderInv(Run(max, g, steps))
  {
    if steps != [] {
      RunInOrder(max, g, steps[..|steps| - 1]);
      StepInOrder(max, Run(max, g, steps[..|steps| - 1]), steps[|steps| - 1]);
    }
  }

  /** Two frames with nothing sent as a frame between them. */
  ghost predicate Adjacent(log: seq<Entry>, i: nat, j: nat) {
    && i < j < |log| && log[i].Sent? && log[j].Sent?
    && forall k :: i < k < j ==> !log[k].Sent?
  }

  ghost predicate ResyncWithin(log: seq<Entry>, i: nat, j: nat) {
    exists k :: i < k < j && k < |log| && log[k].Resync?
  }

  lemma {:induction false} QuietStretch(log: seq<Entry>, i: nat)
    requires i < |log| && log[i].Sent? && forall k :: i < k < |log| ==> !log[k].Sent?
    ensures Frontier(log) == log[i].event.position + 1
    ensures ResyncSince(log) <==> ResyncWithin(log, i, |log|)
  {
    if i < |log| - 1 {
      var prefix := log[..|log| - 1];
      QuietStretch(prefix, i);
      assert log[|log| - 1].Resync? ==> ResyncWithin(log, i, |log|);
      if ResyncWithin(prefix, i, |prefix|) {
        var k :| i < k < |prefix| && prefix[k].Resync?;
        assert log[k].Resync?;
      }
      if ResyncWithin(log, i, |log|) && !log[|log| - 1].Resync? {
        var k :| i < k < |log| && log[k].Resync?;
        assert prefix[k].Resync?;
      }
    }
  }

  lemma {:induction false} OrderlyPrefix(log: seq<Entry>, n: nat)
    requires Orderly(log) && n <= |log|
    ensures Orderly(log[..n])
  {
    if n < |log| {
      OrderlyPrefix(log[..|log| - 1], n);
      assert log[..|log| - 1][..n] == log[..n];
    } else {
      assert log[..n] == log;
    }
  }

  /** No gap goes unannounced, and no resync is sent without one: between two consecutive frames of any run
      the position grows by exactly one unless a resync was sent in between, and by more if one was. */
  lemma GapIffResync(max: nat, g: Registry, steps: seq<Step>, i: nat, j: nat)
    requires Adjacent(Run(max, g, steps).log, i, j)
    ensures var log := Run(max, g, steps).log;
            && log[i].event.position < log[j].event.position
            && (log[i].event.position + 1 < log[j].event.position <==> ResyncWithin(log, i, j))
  {
    RunInOrder(max, g, steps);
    var log := Run(max, g, steps).log;
    OrderlyPrefix(log, j + 1);
    assert log[..j + 1][..j] == log[..j];
    QuietStretch(log[..j], i);
    assert ResyncWithin(log[..j], i, j) <==> ResyncWithin(log, i, j) by {
      assert forall k :: 0 <= k < j ==> log[..j][k] == log[k];
    }
  }

  /** The first frame either is the first event published after subscribing, or a resync precedes it. */
  lemma FirstFrameAnnounced(max: nat, g: Registry, steps: seq<Step>, j: nat)
    requires j < |Run(max, g, steps).log| && Run(max, g, steps).log[j].Sent?
    requires forall k :: 0 <= k < j ==> !Run(max, g, steps).log[k].Sent?
    ensures var log := Run(max, g, steps).log;
            log[j].event.position > 0 <==> exists k :: 0 <= k < j && log[k].Resync?
  {
    RunInOrder(max, g, steps);
    var log := Run(max, g, steps).log;
    OrderlyPrefix(log, j + 1);
    assert log[..j + 1][..j] == log[..j];
    QuietStart(log[..j]);
    assert forall k :: 0 <= k < j ==> log[..j][k] == log[k];
  }

  lemma {:induction false} QuietStart(log: seq<Entry>)
    requires forall k :: 0 <= k < |log| ==> !log[k].Sent?
    ensures Frontier(log) == 0
    ensures ResyncSince(log) <==> exists k :: 0 <= k < |log| && log[k].Resync?
  {
    if log != [] {
      var prefix := log[..|log| - 1];
      QuietStart(prefix);
      assert log == prefix + [log[|log| - 1]];
      if exists k :: 0 <= k < |prefix| && prefix[k].Resync? {
        var k :| 0 <= k < |prefix| && prefix[k].Resync?;
        assert log[k].Resync?;
      }
    }
  }

  // -- content: a quiet, open connection is up to date

  /** The last thing in the log that bears on what a client believes about `d`. */
  datatype Word = Nothing | Stale | Told(view: Option<View>)

  function WordAfter(word: Word, e: Entry, d: int): Word {
    match e
    case Changed(id) => if id == d then Stale else word
    case Sent(ev, view) => if ev.device == Some(d) then Told(view) else word
    case Resync(registry) => Told(ViewOf(registry, d))
    case Ping => word
  }

  function LastWord(log: seq<Entry>, d: int): Word {
    if log == [] then Nothing else WordAfter(LastWord(log[..|log| - 1], d), log[|log| - 1], d)
  }

  lemma WordStep(log: seq<Entry>, e: Entry, d: int)
    ensures LastWord(log + [e], d) == WordAfter(LastWord(log, d), e, d)
  {
    assert (log + [e])[..|log|] == log;
  }

  /** Word about `d` is still to come: it is queued, or a resync is. */
  ghost predicate Pending(s: Socket, d: int) {
    s.sub.lagged || exists i :: 0 <= i < |s.sub.queue| && AboutDevice(s.sub.queue[i], d)
  }

  predicate AboutDevice(e: Option<Event>, d: int) { e.Some? && e.value.device == Some(d) }

  /** Either the client has the current view of `d`, or word of it is pending. */
  ghost predicate Tracked(s: Socket, initial: Registry, d: int) {
    match LastWord(s.log, d)
    case Nothing => ViewOf(s.g, d) == ViewOf(initial, d)
    case Told(view) => view == ViewOf(s.g, d)
    case Stale => Pending(s, d)
  }

  ghost predicate Live(s: Socket) { !s.sub.closed && s.forwarder != Stopped }

  lemma PublishTracks(max: nat, s: Socket, device: Option<int>, initial: Registry, d: int)
    requires Live(s) && Tracked(s, initial, d)
    ensures Live(Publish(max, s, device)) && Tracked(Publish(max, s, device), initial, d)
  {
    var q, e := s.sub.queue, Some(Event(s.next, device));
    if !s.sub.lagged && !Full(max, s.sub) && exists i :: 0 <= i < |q| && AboutDevice(q[i], d) {
      var i :| 0 <= i < |q| && AboutDevice(q[i], d);
      assert (q + [e])[i] == q[i];
    }
  }

  lemma {:induction false} PublishAboutTracks(max: nat, s: Socket, id: int, n: nat, initial: Registry, d: int)
    requires Live(s) && Tracked(s, initial, d)
    ensures Live(PublishAbout(max, s, id, n)) && Tracked(PublishAbout(max, s, id, n), initial, d)
  {
    if n > 0 {
      PublishAboutTracks(max, s, id, n - 1, initial, d);
      PublishTracks(max, PublishAbout(max, s, id, n - 1), Some(id), initial, d);
    }
  }

  /** The newest event is always queued, whatever was dropped for it. */
  lemma {:induction false} AnnouncedIsPending(max: nat, s: Socket, id: int, n: nat)
    requires Live(s) && n > 0
    ensures var s' := PublishAbout(max, s, id, n);
            Live(s') && Pending(s', id) && s'.g == s.g && s'.log == s.log && s'.forwarder == s.forwarder
  {
    if n > 1 { AnnouncedIsPending(max, s, id, n - 1); }
    var before := PublishAbout(max, s, id, n - 1);
    var q := PublishAbout(max, s, id, n).sub.queue;
    assert AboutDevice(q[|q| - 1], id);
  }

  /** A device changes and `n` events say so. */
  lemma ChangeTracks(max: nat, s: Socket, g: Registry, id: int, n: nat, initial: Registry, d: int)
    requires Live(s) && Tracked(s, initial, d) && n > 0
    requires d != id ==> ViewOf(g, d) == ViewOf(s.g, d)
    ensures var s' := PublishAbout(max, Held(s, g, id), id, n); Live(s') && Tracked(s', initial, d)
  {
    WordStep(s.log, Changed(id), d);
    if d == id {
      AnnouncedIsPending(max, Held(s, g, id), id, n);
    } else {
      PublishAboutTracks(max, Held(s, g, id), id, n, initial, d);
    }
  }

  /** An observation without events leaves every view as it was, and any observation leaves others alone. */
  lemma SilentKeepsViews(g: Registry, ref: Ref, o: Observation, source: Source, now: real, d: int)
    ensures var (g', es) := Ingest(g, ref, o, source, now);
            es == [] || d != g.idByRef[ref] ==> ViewOf(g', d) == ViewOf(g, d)
    ensures Ingest(g, ref, o, source, now).1 != [] ==> ref in g.idByRef
  {
    if ref in g.idByRef && g.idByRef[ref] in g.devices {
      var before := g.devices[g.idByRef[ref]];
      SilentIffUnchanged(before, Ingested(before, o, source, now));
    }
  }

  /** A frame is sent, and its event is off the queue. */
  lemma SentTracks(s: Socket, t: Socket, e: Event, initial: Registry, d: int)
    requires Tracked(s, initial, d) && t.g == s.g && t.log == s.log + [FrameOf(s, e)]
    requires e.device != Some(d) && LastWord(s.log, d) == Stale ==> Pending(t, d)
    ensures Tracked(t, initial, d)
  {
    WordStep(s.log, FrameOf(s, e), d);
  }

  /** What is queued about `d` behind another device's event is still queued once that is taken. */
  lemma StillPending(s: Socket, t: Socket, d: int)
    requires Pending(s, d) && !s.sub.lagged && s.sub.queue != [] && !AboutDevice(s.sub.queue[0], d)
    requires t.sub.queue == s.sub.queue[1..]
    ensures Pending(t, d)
  {
    var q := s.sub.queue;
    var i :| 0 <= i < |q| && AboutDevice(q[i], d);
    assert t.sub.queue[i - 1] == q[i];
  }

  lemma DeliverTracks(s: Socket, initial: Registry, d: int)
    requires Live(s) && Tracked(s, initial, d) && OrderInv(s)
    ensures Live(OnDeliver(s)) && Tracked(OnDeliver(s), initial, d)
  {
    if s.forwarder == Idle && s.sub.queue != [] {
      var t, e := OnDeliver(s), s.sub.queue[0].value;
      if s.sub.lagged {
        WordStep(s.log, Resync(s.g), d);
      } else {
        if e.device != Some(d) && LastWord(s.log, d) == Stale { StillPending(s, t, d); }
        SentTracks(s, t, e, initial, d);
      }
    }
  }

  lemma FinishTracks(s: Socket, initial: Registry, d: int)
    requires Live(s) && Tracked(s, initial, d)
    ensures Live(OnFinish(s)) && Tracked(OnFinish(s), initial, d)
  {
    if s.forwarder.Owing? { SentTracks(s, OnFinish(s), s.forwarder.event, initial, d); }
  }

  lemma StepTracks(max: nat, s: Socket, step: Step, initial: Registry, d: int)
    requires Live(s) && Tracked(s, initial, d) && OrderInv(s) && Live(After(max, s, step))
    ensures Tracked(After(max, s, step), initial, d)
  {
    match step
    case Observed(ref, o, source, now) =>
      var (g, es) := Ingest(s.g, ref, o, source, now);
      SilentKeepsViews(s.g, ref, o, source, now, d);
      if es != [] { ChangeTracks(max, s, g, s.g.idByRef[ref], |es|, initial, d); }
    case Discovered(id, ref, kind, o) =>
      ChangeTracks(max, s, Registered(s.g, id, ref, kind, o), id, 1, initial, d);
    case OtherEvent(device) => PublishTracks(max, s, device, initial, d);
    case Deliver => DeliverTracks(s, initial, d);
    case Finish => FinishTracks(s, initial, d);
    case Heartbeat => WordStep(s.log, Ping, d);
    case PeerGone =>
    case Shut =>
  }

  lemma {:induction false} RunTracks(max: nat, g: Registry, steps: seq<Step>, d: int)
    requires Live(Run(max, g, steps))
    ensures Tracked(Run(max, g, steps), g, d)
  {
    if steps != [] {
      var earlier := steps[..|steps| - 1];
      StillLive(max, Run(max, g, earlier), steps[|steps| - 1]);
      RunTracks(max, g, earlier, d);
      RunInOrder(max, g, earlier);
      StepTracks(max, Run(max, g, earlier), steps[|steps| - 1], g, d);
    }
  }

  /** Neither closing nor losing the peer can be undone. */
  lemma StillLive(max: nat, s: Socket, step: Step)
    requires Live(After(max, s, step))
    ensures Live(s)
  {
    match step
    case Observed(ref, o, source, now) =>
      var (g, es) := Ingest(s.g, ref, o, source, now);
      if es != [] { PublishAboutKeepsEnd(max, Held(s, g, s.g.idByRef[ref]), s.g.idByRef[ref], |es|); }
    case Discovered(id, ref, kind, o) =>
      PublishAboutKeepsEnd(max, Held(s, Registered(s.g, id, ref, kind, o), id), id, 1);
    case _ =>
  }

  lemma {:induction false} PublishAboutKeepsEnd(max: nat, s: Socket, id: int, n: nat)
    ensures var s' := PublishAbout(max, s, id, n); s'.sub.closed == s.sub.closed && s'.forwarder == s.forwarder
  {
    if n > 0 { PublishAboutKeepsEnd(max, s, id, n - 1); }
  }

  /** Caught up: open, nothing queued, nothing half sent. */
  ghost predicate Drained(s: Socket) { !s.sub.closed && s.forwarder == Idle && s.sub.queue == [] }

  ghost predicate UpToDate(s: Socket, initial: Registry, d: int) {
    match LastWord(s.log, d)
    case Stale => false
    case Told(view) => view == ViewOf(s.g, d)
    case Nothing => ViewOf(s.g, d) == ViewOf(initial, d)
  }

  /** No silent divergence: whenever an open connection is drained, every device that changed since the
      client subscribed has since been covered by a frame carrying its present state and availability, or by
      a resync sent after its last change. */
  lemma NoSilentDivergence(max: nat, g: Registry, steps: seq<Step>, d: int)
    requires Drained(Run(max, g, steps))
    ensures UpToDate(Run(max, g, steps), g, d)
  {
    RunTracks(max, g, steps, d);
    RunInOrder(max, g, steps);
  }

  /** A client that starts from the snapshot, believes every frame and refetches at every resync. */
  function Mirror(log: seq<Entry>, snapshot: Registry, d: int): Option<View> {
    if log == [] then ViewOf(snapshot, d)
    else match log[|log| - 1]
      case Sent(e, view) => if e.device == Some(d) then view else Mirror(log[..|log| - 1], snapshot, d)
      case Resync(registry) => ViewOf(registry, d)
      case _ => Mirror(log[..|log| - 1], snapshot, d)
  }

  lemma {:induction false} MirrorIsLastWord(log: seq<Entry>, snapshot: Registry, d: int)
    requires LastWord(log, d) != Stale
    ensures Mirror(log, snapshot, d)
            == if LastWord(log, d).Told? then LastWord(log, d).view else ViewOf(snapshot, d)
  {
    if log != [] {
      var last := log[|log| - 1];
      if !last.Resync? && !(last.Sent? && last.event.device == Some(d)) {
        MirrorIsLastWord(log[..|log| - 1], snapshot, d);
      }
    }
  }

  /** So such a client shows exactly what the registry holds, whenever its connection is drained. */
  lemma MirrorIsExact(max: nat, g: Registry, steps: seq<Step>, d: int)
    requires Drained(Run(max, g, steps))
    ensures Mirror(Run(max, g, steps).log, g, d) == ViewOf(Run(max, g, steps).g, d)
  {
    NoSilentDivergence(max, g, steps, d);
    MirrorIsLastWord(Run(max, g, steps).log, g, d);
  }

  // -- after the end

  /** How much went over the socket: frames, resyncs and pings. */
  function Written(log: seq<Entry>): nat {
    if log == [] then 0 else Written(log[..|log| - 1]) + if log[|log| - 1].Changed? then 0 else 1
  }

  lemma WrittenStep(log: seq<Entry>, e: Entry)
    ensures Written(log + [e]) == Written(log) + if e.Changed? then 0 else 1
  {
    assert (log + [e])[..|log|] == log;
  }

  lemma {:induction false} PublishAboutWrites(max: nat, s: Socket, id: int, n: nat)
    ensures PublishAbout(max, s, id, n).log == s.log && PublishAbout(max, s, id, n).forwarder == s.forwarder
  {
    if n > 0 { PublishAboutWrites(max, s, id, n - 1); }
  }

  lemma StoppedStep(max: nat, s: Socket, step: Step)
    requires s.forwarder == Stopped
    ensures After(max, s, step).forwarder == Stopped && Written(After(max, s, step).log) == Written(s.log)
  {
    match step
    case Observed(ref, o, source, now) =>
      var (g, es) := Ingest(s.g, ref, o, source, now);
      if es != [] {
        WrittenStep(s.log, Changed(s.g.idByRef[ref]));
        PublishAboutWrites(max, Held(s, g, s.g.idByRef[ref]), s.g.idByRef[ref], |es|);
      }
    case Discovered(id, ref, kind, o) =>
      WrittenStep(s.log, Changed(id));
      PublishAboutWrites(max, Held(s, Registered(s.g, id, ref, kind, o), id), id, 1);
    case _ =>
  }

  function RunFrom(max: nat, s: Socket, steps: seq<Step>): Socket {
    if steps == [] then s else After(max, RunFrom(max, s, steps[..|steps| - 1]), steps[|steps| - 1])
  }

  lemma {:induction false} StoppedForGood(max: nat, s: Socket, steps: seq<Step>)
    requires s.forwarder == Stopped
    ensures RunFrom(max, s, steps).forwarder == Stopped && Written(RunFrom(max, s, steps).log) == Written(s.log)
  {
    if steps != [] {
      StoppedForGood(max, s, steps[..|steps| - 1]);
      StoppedStep(max, RunFrom(max, s, steps[..|steps| - 1]), steps[|steps| - 1]);
    }
  }

  /** Once the end marker has been taken or the peer has gone, nothing more is ever written to the socket, and
      until then a heartbeat that comes due between events is. */
  lemma EndIsSilent(max: nat, s: Socket, steps: seq<Step>)
    requires s.forwarder == Idle
    ensures s.sub.queue != [] && s.sub.queue[0].None? ==>
              Written(RunFrom(max, After(max, s, Deliver), steps).log) == Written(s.log)
    ensures Written(RunFrom(max, After(max, s, PeerGone), steps).log) == Written(s.log)
    ensures Written(After(max, s, Heartbeat).log) == Written(s.log) + 1
  {
    if s.sub.queue != [] && s.sub.queue[0].None? { StoppedForGood(max, After(max, s, Deliver), steps); }
    StoppedForGood(max, After(max, s, PeerGone), steps);
    WrittenStep(s.log, Ping);
  }

  // -- the forwarder

  /** `_forward`, cut at its awaits, over a subscription and the registry. */
  class Connection {
    const subscription: Subscription<Event>
    const registry: DeviceRegistry
    var forwarder: Forwarder
    var log: seq<Entry>

    function Value(next: nat): Socket
      reads this, subscription, registry
    {
      Socket(registry.Value(), subscription.Value(), next, forwarder, log)
    }

    constructor (subscription: Subscription<Event>, registry: DeviceRegistry)
      ensures this.subscription == subscription && this.registry == registry
      ensures forwarder == Idle && log == []
    {
      this.subscription, this.registry := subscription, registry;
      forwarder, log := Idle, [];
    }

    method SendFrame(e: Event)
      requires forwarder != Stopped
      modifies this
      ensures log == old(log) + [FrameOf(old(Value(0)), e)] && forwarder == Idle
    {
      var view := None;
      if e.device.Some? && e.device.value in registry.devices {
        var device := registry.devices[e.device.value];
        view := Some(View(device.availability, device.state));
      }
      log := log + [Sent(e, view)];
      forwarder := Idle;
    }

    /** From taking an event to the first send. */
    method DeliverNext(ghost next: nat)
      modifies this, subscription
      ensures Value(next) == OnDeliver(old(Value(next)))
    {
      if forwarder != Idle || subscription.queue == [] {
        return;
      }
      var e := subscription.TakeNext();
      if e.None? {
        forwarder := Stopped;
        return;
      }
      var lagged := subscription.TakeLagged();
      if lagged {
        log := log + [Resync(registry.Value())];
        forwarder := Owing(e.value);
      } else {
        SendFrame(e.value);
      }
    }

    /** The frame that follows a resync. */
    method FinishNext(ghost next: nat)
      modifies this
      ensures Value(next) == OnFinish(old(Value(next)))
    {
      if forwarder.Owing? {
        SendFrame(forwarder.event);
      }
    }
  }
}
