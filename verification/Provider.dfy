/** The adapter around one controller (integrations/bestway/provider.py). What each attempt to connect and
    read comes to is a script of client results; a script that has run out is a controller that is gone. */
module Provider {
  import opened Basics
  import opened Policy
  import opened Protocol
  import opened Client
  import opened Datapoints
  import DeviceModel
  import Layouts

  const CONFIRM_ATTEMPTS: nat := 6

  function DatapointOf(action: Action): Option<Datapoint> {
    match action
    case SET_TARGET_TEMPERATURE => Some(Datapoint.TARGET_TEMPERATURE)
    case SET_HEATER => Some(HEATER)
    case SET_FILTER => Some(FILTER_PUMP)
    case SET_BUBBLES => Some(Datapoint.BUBBLES)
    case SET_CONTROL_PANEL_LOCK => Some(Datapoint.CONTROL_PANEL_LOCK)
    case _ => None
  }

  // -- reading

  function Attempt(net: seq<Result>): (Result, seq<Result>) {
    if net == [] then (Failed(UNAVAILABLE), []) else (net[0], net[1..])
  }

  /** `_read_with_retry`: one retry, and only of a dropped connection. */
  function ReadWithRetry(net: seq<Result>): (Result, seq<Result>) {
    var (first, rest) := Attempt(net);
    if first == Failed(UNAVAILABLE) then Attempt(rest) else (first, rest)
  }

  /** A status block the layout does not fit counts as no answer. */
  function Judged(p: Profile, r: Result): Result {
    if r.Answer? && !p.FitsPayload(r.payload) then Failed(UNAVAILABLE) else r
  }

  /** `_read_payload`. */
  function ReadPayload(p: Profile, net: seq<Result>): (Result, seq<Result>) {
    var (r, rest) := ReadWithRetry(net);
    (Judged(p, r), rest)
  }

  /** What `n` successive block reads come to, whatever is done with them. */
  function Reads(p: Profile, net: seq<Result>, n: nat): (rs: seq<Result>)
    ensures |rs| == n
  {
    if n == 0 then [] else
    var (r, rest) := ReadPayload(p, net);
    [r] + Reads(p, rest, n - 1)
  }

  /** A block is read exactly when it fits and comes at the first attempt, or at the second after the first
      found the connection gone; nothing else is ever tried again. */
  lemma ReadTwiceAtMost(p: Profile, net: seq<Result>, block: seq<byte>)
    ensures var (r, rest) := ReadPayload(p, net);
            && (r == Answer(block) <==>
                  p.FitsPayload(block)
                  && ((|net| >= 1 && net[0] == Answer(block))
                      || (|net| >= 2 && net[0] == Failed(UNAVAILABLE) && net[1] == Answer(block))))
            && rest == net[Min(|net|, if net != [] && net[0] == Failed(UNAVAILABLE) then 2 else 1)..]
            && (|net| >= 1 && net[0].Failed? && net[0] != Failed(UNAVAILABLE) ==> r == net[0])
  {
  }

  // -- confirming

  predicate Shows(p: Profile, d: Datapoint, value: int, payload: seq<byte>) {
    p.FitsPayload(payload) && d in p.locations && ReadAt(p.locations[d], payload) == value
  }

  /** A read that ends the confirmation loop: the block shows the value, or the client broke down. */
  predicate Decides(p: Profile, d: Datapoint, value: int, r: Result) {
    r == Failed(PROTOCOL_ERROR) || (r.Answer? && Shows(p, d, value, r.payload))
  }

  /** How confirming ended, with the last block read. */
  datatype Confirmed = Latest(payload: Option<seq<byte>>) | Broke(payload: Option<seq<byte>>)

  /** `_confirm`. */
  function Confirm(p: Profile, d: Datapoint, value: int, net: seq<Result>, attempts: nat,
                   latest: Option<seq<byte>>): (Confirmed, seq<Result>)
    decreases attempts
  {
    if attempts == 0 then (Latest(latest), net)
    else
      var (r, rest) := ReadPayload(p, net);
      if r == Failed(PROTOCOL_ERROR) then (Broke(latest), rest)
      else if r.Failed? then Confirm(p, d, value, rest, attempts - 1, latest)
      else if Shows(p, d, value, r.payload) then (Latest(Some(r.payload)), rest)
      else Confirm(p, d, value, rest, attempts - 1, Some(r.payload))
  }

  ghost predicate NoneDecide(p: Profile, d: Datapoint, value: int, rs: seq<Result>) {
    forall i :: 0 <= i < |rs| ==> !Decides(p, d, value, rs[i])
  }

  /** The block the last successful read of `rs` returned, or what was known before. */
  function LastAnswer(rs: seq<Result>, known: Option<seq<byte>>): Option<seq<byte>> {
    if rs == [] then known
    else if rs[|rs| - 1].Answer? then Some(rs[|rs| - 1].payload)
    else LastAnswer(rs[..|rs| - 1], known)
  }

  lemma {:induction false} LastAnswerCons(r: Result, rs: seq<Result>, known: Option<seq<byte>>)
    ensures LastAnswer([r] + rs, known) == LastAnswer(rs, if r.Answer? then Some(r.payload) else known)
  {
    var all := [r] + rs;
    if rs == [] {
      assert all[..0] == [];
    } else {
      assert all[..|all| - 1] == [r] + rs[..|rs| - 1];
      LastAnswerCons(r, rs[..|rs| - 1], known);
    }
  }

  /** The verdict of a confirmation, in terms of the reads alone: the first deciding read, if there is one,
      and otherwise the last block that could be read. */
  ghost predicate Verdict(p: Profile, d: Datapoint, value: int, rs: seq<Result>, known: Option<seq<byte>>,
                          c: Confirmed)
  {
    if NoneDecide(p, d, value, rs) then c == Latest(LastAnswer(rs, known))
    else exists k: nat :: FirstDecides(p, d, value, rs, k) && Decided(rs[k], c)
  }

  ghost predicate FirstDecides(p: Profile, d: Datapoint, value: int, rs: seq<Result>, k: nat) {
    k < |rs| && Decides(p, d, value, rs[k]) && forall i :: 0 <= i < k ==> !Decides(p, d, value, rs[i])
  }

  predicate Decided(r: Result, c: Confirmed) {
    if r.Answer? then c == Latest(Some(r.payload)) else c.Broke?
  }

  lemma {:induction false} ConfirmVerdict(p: Profile, d: Datapoint, value: int, net: seq<Result>, attempts: nat,
                                          known: Option<seq<byte>>)
    ensures Verdict(p, d, value, Reads(p, net, attempts), known, Confirm(p, d, value, net, attempts, known).0)
    decreases attempts
  {
    if attempts > 0 {
      var (r, rest) := ReadPayload(p, net);
      var rs := Reads(p, rest, attempts - 1);
      if Decides(p, d, value, r) {
        assert FirstDecides(p, d, value, [r] + rs, 0);
        assert ([r] + rs)[0] == r;
      } else {
        var known' := if r.Answer? then Some(r.payload) else known;
        ConfirmVerdict(p, d, value, rest, attempts - 1, known');
        VerdictCons(p, d, value, r, rs, known, Confirm(p, d, value, rest, attempts - 1, known').0);
      }
    }
  }

  lemma VerdictCons(p: Profile, d: Datapoint, value: int, r: Result, rs: seq<Result>, known: Option<seq<byte>>,
                    c: Confirmed)
    requires !Decides(p, d, value, r)
    requires Verdict(p, d, value, rs, if r.Answer? then Some(r.payload) else known, c)
    ensures Verdict(p, d, value, [r] + rs, known, c)
  {
    NoneDecideCons(p, d, value, r, rs);
    if NoneDecide(p, d, value, rs) {
      LastAnswerCons(r, rs, known);
    } else {
      var k: nat :| FirstDecides(p, d, value, rs, k) && Decided(rs[k], c);
      FirstDecidesCons(p, d, value, r, rs, k);
    }
  }

  lemma NoneDecideCons(p: Profile, d: Datapoint, value: int, r: Result, rs: seq<Result>)
    requires !Decides(p, d, value, r)
    ensures NoneDecide(p, d, value, [r] + rs) <==> NoneDecide(p, d, value, rs)
  {
    assert forall i :: 0 <= i < |rs| ==> ([r] + rs)[i + 1] == rs[i];
  }

  lemma FirstDecidesCons(p: Profile, d: Datapoint, value: int, r: Result, rs: seq<Result>, k: nat)
    requires !Decides(p, d, value, r) && FirstDecides(p, d, value, rs, k)
    ensures FirstDecides(p, d, value, [r] + rs, k + 1) && ([r] + rs)[k + 1] == rs[k]
  {
  }

  // -- writing

  datatype ValueFor = Wanted(value: int) | Unusable

  /** `_value_for`. */
  function WantedValue(p: Profile, params: Params, base: seq<byte>): ValueFor {
    match params
    case OnOff(on) => Wanted(if on then 1 else 0)
    case TargetTemperature(celsius) =>
      if !(p.minC <= celsius <= p.maxC) then Unusable
      else Wanted(FromCelsius(celsius, Fahrenheit(p, base)))
    case _ => Unusable
  }

  predicate Fahrenheit(p: Profile, base: seq<byte>) {
    && UNIT_IS_FAHRENHEIT in p.locations
    && p.locations[UNIT_IS_FAHRENHEIT].offset < |base|
    && ReadAt(p.locations[UNIT_IS_FAHRENHEIT], base) != 0
  }

  datatype Ending =
    | Applied(payload: seq<byte>)
    | NotConfirmed(payload: seq<byte>)
    | ReadBackFailed
    | Rejected
    | Unreachable(failure: Failure)
    | Crashed

  datatype Request = Request(flags: nat, values: seq<byte>)

  /** An execution: how it ended, the control requests put on the wire, the last block read. */
  datatype Execution = Execution(ending: Ending, controls: seq<Request>, seen: Option<seq<byte>>)

  function Unread(f: Failure): Ending { if f == PROTOCOL_ERROR then Crashed else Unreachable(f) }

  /** `execute` for the one device there is; `written` is what `send_control` meets on the wire. */
  function Execute(p: Profile, action: Action, params: Params, written: Option<Failure>, net: seq<Result>): Execution {
    match DatapointOf(action)
    case None => Execution(Rejected, [], None)
    case Some(d) =>
      var (base, rest) := ReadPayload(p, net);
      if base.Failed? then Execution(Unread(base.failure), [], None)
      else match WantedValue(p, params, base.payload)
        case Unusable => Execution(Rejected, [], Some(base.payload))
        case Wanted(value) =>
          match Encode(p, d, value, base.payload)
          case Refused(why) => Execution(if why == NEGATIVE_SHIFT then Crashed else Rejected, [], Some(base.payload))
          case Control(flags, values) => Write(p, d, value, Request(flags, values), written, rest, base.payload)
  }

  function Write(p: Profile, d: Datapoint, value: int, request: Request, written: Option<Failure>, net: seq<Result>,
                 base: seq<byte>): Execution {
    if request.flags >= 0x1_0000 || request.values == [] then Execution(Crashed, [], Some(base))
    else if written.Some? then Execution(Unread(written.value), [request], Some(base))
    else
      var c := Confirm(p, d, value, net, CONFIRM_ATTEMPTS, None).0;
      Execution(AfterConfirm(p, d, value, c), [request], if c.payload.Some? then c.payload else Some(base))
  }

  function AfterConfirm(p: Profile, d: Datapoint, value: int, c: Confirmed): Ending {
    if c.Broke? then Crashed
    else if c.payload.None? then ReadBackFailed
    else if Shows(p, d, value, c.payload.value) then Applied(c.payload.value)
    else NotConfirmed(c.payload.value)
  }

  // -- what an execution guarantees

  /** The gates of a write, as facts about the command, the layout and the first block read. */
  ghost predicate Sendable(p: Profile, action: Action, params: Params, net: seq<Result>, d: Datapoint, value: int) {
    && DatapointOf(action) == Some(d)
    && p.MayWrite(d)
    && (params.OnOff? || (params.TargetTemperature? && p.minC <= params.celsius <= p.maxC))
    && ReadPayload(p, net).0.Answer?
    && WantedValue(p, params, ReadPayload(p, net).0.payload) == Wanted(value)
    && Encode(p, d, value, ReadPayload(p, net).0.payload).Control?
    && p.flagBits[d] <= 15
  }

  /** At most one control request, and one exactly when every gate is open; it is then the block read just
      before with the wanted value in it. An unproven layout, an unreleased datapoint or a setpoint out of
      range sends nothing. */
  lemma OneControlOrNone(p: Profile, action: Action, params: Params, written: Option<Failure>, net: seq<Result>)
    requires p.Valid()
    ensures var sent := Execute(p, action, params, written, net).controls;
            && |sent| <= 1
            && (sent != [] <==> exists d, value :: Sendable(p, action, params, net, d, value))
            && (forall d, value :: Sendable(p, action, params, net, d, value) ==>
                  var e := Encode(p, d, value, ReadPayload(p, net).0.payload);
                  sent == [Request(e.flags, e.values)])
  {
    var base := ReadPayload(p, net).0;
    if DatapointOf(action).Some? && base.Answer? {
      var d, wanted := DatapointOf(action).value, WantedValue(p, params, base.payload);
      if wanted.Wanted? && Encode(p, d, wanted.value, base.payload).Control? {
        AcceptedBlock(p, d, wanted.value, base.payload);
        Layouts.FlagFitsRequest(p.flagBits[d], 0, Encode(p, d, wanted.value, base.payload).values);
        if p.flagBits[d] <= 15 {
          assert Sendable(p, action, params, net, d, wanted.value);
        }
      }
    }
  }

  /** The request can be put into a block: everything a write needs but the wire. */
  ghost predicate Expressible(p: Profile, params: Params, d: Datapoint, base: seq<byte>) {
    && WantedValue(p, params, base).Wanted? && Encode(p, d, WantedValue(p, params, base).value, base).Control?
    && p.flagBits[d] <= 15
  }

  /** How an execution ends that never gets to read back, exactly: unreachable when the first read or the write
      finds the controller gone, and without anything on the wire rejected when the layout, the release or the
      range does not allow the request. */
  lemma EndsBeforeReadBack(p: Profile, action: Action, params: Params, written: Option<Failure>, net: seq<Result>)
    requires p.Valid()
    ensures var e, base, d := Execute(p, action, params, written, net), ReadPayload(p, net).0, DatapointOf(action);
            && (e.ending.Unreachable? <==>
                  d.Some? && ((base.Failed? && base.failure != PROTOCOL_ERROR)
                              || (base.Answer? && Expressible(p, params, d.value, base.payload)
                                  && written.Some? && written.value != PROTOCOL_ERROR)))
            && (e.ending.Unreachable? && base.Failed? ==> e.ending.failure == base.failure)
            && (e.ending.Unreachable? && base.Answer? ==> Some(e.ending.failure) == written)
            && (e.ending.Rejected? ==> e.controls == [])
            && (d.None? ==> e.ending.Rejected?)
            && (d.Some? && base.Answer? && !p.MayWrite(d.value) ==> e.ending.Rejected?)
            && (d.Some? && base.Answer? && params.TargetTemperature? && !(p.minC <= params.celsius <= p.maxC) ==>
                  e.ending.Rejected?)
            && (d.Some? && base.Answer? && Expressible(p, params, d.value, base.payload) ==> e.controls != [])
            && (written.Some? ==> !e.ending.Applied? && !e.ending.NotConfirmed? && !e.ending.ReadBackFailed?)
  {
    var base := ReadPayload(p, net).0;
    if DatapointOf(action).Some? && base.Answer? {
      var d, wanted := DatapointOf(action).value, WantedValue(p, params, base.payload);
      if wanted.Wanted? && Encode(p, d, wanted.value, base.payload).Control? {
        AcceptedBlock(p, d, wanted.value, base.payload);
        Layouts.FlagFitsRequest(p.flagBits[d], 0, Encode(p, d, wanted.value, base.payload).values);
      }
    }
  }

  /** What the reads after the write say about the ending, when the write itself went through. */
  ghost predicate ReadAfterWrite(p: Profile, d: Datapoint, value: int, rs: seq<Result>, ending: Ending) {
    && (ending.Applied? <==> exists k: nat :: FirstDecides(p, d, value, rs, k) && rs[k].Answer?)
    && (forall k: nat :: FirstDecides(p, d, value, rs, k) && rs[k].Answer? ==> ending == Applied(rs[k].payload))
    && (ending.Applied? ==> Answer(ending.payload) in rs && Shows(p, d, value, ending.payload))
    && (ending.NotConfirmed? <==> NoneDecide(p, d, value, rs) && exists k :: 0 <= k < |rs| && rs[k].Answer?)
    && (ending.NotConfirmed? ==> Answer(ending.payload) in rs && !Shows(p, d, value, ending.payload))
    && (ending == ReadBackFailed <==> forall k :: 0 <= k < |rs| ==> rs[k].Failed? && rs[k] != Failed(PROTOCOL_ERROR))
  }

  lemma {:induction false} LastAnswerIn(rs: seq<Result>)
    ensures LastAnswer(rs, None).None? <==> forall k :: 0 <= k < |rs| ==> rs[k].Failed?
    ensures LastAnswer(rs, None).Some? ==> Answer(LastAnswer(rs, None).value) in rs
  {
    if rs != [] && rs[|rs| - 1].Failed? {
      LastAnswerIn(rs[..|rs| - 1]);
      assert rs == rs[..|rs| - 1] + [rs[|rs| - 1]];
    }
  }

  lemma EndingFromReads(p: Profile, d: Datapoint, value: int, rs: seq<Result>, c: Confirmed)
    requires Verdict(p, d, value, rs, None, c)
    requires forall k :: 0 <= k < |rs| && rs[k].Answer? ==> p.FitsPayload(rs[k].payload)
    ensures ReadAfterWrite(p, d, value, rs, AfterConfirm(p, d, value, c))
  {
    LastAnswerIn(rs);
    if NoneDecide(p, d, value, rs) {
      forall k: nat | k < |rs| ensures !FirstDecides(p, d, value, rs, k) {}
    } else {
      var k: nat :| FirstDecides(p, d, value, rs, k) && Decided(rs[k], c);
      forall j: nat | FirstDecides(p, d, value, rs, j) ensures j == k {
        FirstIsUnique(p, d, value, rs, j, k);
      }
    }
  }

  lemma FirstIsUnique(p: Profile, d: Datapoint, value: int, rs: seq<Result>, j: nat, k: nat)
    requires FirstDecides(p, d, value, rs, j) && FirstDecides(p, d, value, rs, k)
    ensures j == k
  {
  }

  lemma {:induction false} ReadsFit(p: Profile, net: seq<Result>, n: nat)
    ensures forall k :: 0 <= k < n && Reads(p, net, n)[k].Answer? ==> p.FitsPayload(Reads(p, net, n)[k].payload)
  {
    if n > 0 { ReadsFit(p, ReadPayload(p, net).1, n - 1); }
  }

  /** Read-after-write, under any pattern of read failures: applied exactly when some later read showed the
      value, not confirmed exactly when some later read succeeded and none showed it, read-back failed exactly
      when every later read failed. */
  lemma ReadAfterWriteHolds(p: Profile, action: Action, params: Params, net: seq<Result>, d: Datapoint, value: int)
    requires p.Valid() && Sendable(p, action, params, net, d, value)
    ensures ReadAfterWrite(p, d, value, Reads(p, ReadPayload(p, net).1, CONFIRM_ATTEMPTS),
                           Execute(p, action, params, None, net).ending)
  {
    var (base, rest) := ReadPayload(p, net);
    AcceptedBlock(p, d, value, base.payload);
    Layouts.FlagFitsRequest(p.flagBits[d], 0, Encode(p, d, value, base.payload).values);
    Settled(p, d, value, rest, CONFIRM_ATTEMPTS);
  }

  lemma Settled(p: Profile, d: Datapoint, value: int, net: seq<Result>, attempts: nat)
    ensures ReadAfterWrite(p, d, value, Reads(p, net, attempts),
                           AfterConfirm(p, d, value, Confirm(p, d, value, net, attempts, None).0))
  {
    ConfirmVerdict(p, d, value, net, attempts, None);
    ReadsFit(p, net, attempts);
    EndingFromReads(p, d, value, Reads(p, net, attempts), Confirm(p, d, value, net, attempts, None).0);
  }

  /** The byte-range refusal cannot be reached from a command: a valid layout only lets through setpoints
      that fit one byte in either unit. */
  lemma RangeRefusalUnreachable(p: Profile, d: Datapoint, params: Params, base: seq<byte>)
    requires p.Valid() && WantedValue(p, params, base).Wanted?
    ensures 0 <= WantedValue(p, params, base).value <= 140
    ensures Encode(p, d, WantedValue(p, params, base).value, base) != Refused(DOES_NOT_FIT)
  {
    if params.TargetTemperature? { SetpointFits(p, params.celsius, Fahrenheit(p, base)); }
    if d in p.locations && p.locations[d].BitAt? {
      var l, value := p.locations[d], WantedValue(p, params, base).value;
      forall raw: byte ensures Rewritten(l, raw, value).Some? {
        BitWriteFits(l, raw, value);
      }
    }
  }

  // -- a controller that does as it is told

  /** The command's parameters are those of its action, as the request schema demands. */
  predicate WellTyped(action: Action, params: Params) {
    DatapointOf(action).Some? && Validates(action, params)
  }

  /** The first `k` reads failed, or still returned the block from before the write. */
  ghost predicate NotYet(rs: seq<Result>, k: nat, base: seq<byte>) {
    forall j :: 0 <= j < k && j < |rs| ==>
      rs[j] == Answer(base) || (rs[j].Failed? && rs[j] != Failed(PROTOCOL_ERROR))
  }

  /** End to end: on either shipped layout, a controller that applies exactly the flagged attribute and reports
      the resulting block at any of the six reads after the write, with failures or the old block before, is
      seen to have done so: the command ends applied, with that block unless the old one showed the value
      already, whatever `sequence` the request carried. */
  lemma HonestControllerIsApplied(p: Profile, action: Action, params: Params, base: seq<byte>, net: seq<Result>,
                                  k: nat, d: Datapoint, value: int, sequence: int)
    requires Layouts.BuiltIn(p) && p.writable <= p.flagBits.Keys && WellTyped(action, params)
    requires Sendable(p, action, params, net, d, value) && 0 <= sequence < 0x1_0000_0000
    requires ReadPayload(p, net).0 == Answer(base) && k < CONFIRM_ATTEMPTS
    requires var rs := Reads(p, ReadPayload(p, net).1, CONFIRM_ATTEMPTS);
             var told := ObeyedRequest(p, d, value, base, sequence);
             NotYet(rs, k, base) && told.Some? && rs[k] == Answer(told.value)
    ensures var ending := Execute(p, action, params, None, net).ending;
            && ending.Applied? && Shows(p, d, value, ending.payload)
            && (!Shows(p, d, value, base) ==> Some(ending.payload) == ObeyedRequest(p, d, value, base, sequence))
  {
    Layouts.BuiltInsAreSound(p);
    ReadPayloadFits(p, net);
    WantedIsHeld(p, action, params, base, d, value);
    Obeyed(p, d, value, base, sequence);
    ReadAfterWriteHolds(p, action, params, net, d, value);
    ShownInTime(p, d, value, Reads(p, ReadPayload(p, net).1, CONFIRM_ATTEMPTS), k, base,
                Execute(p, action, params, None, net).ending);
  }

  /** Told to write, such a controller always has a block to show, so the hypothesis above is never empty. */
  lemma ObeyedExists(p: Profile, action: Action, params: Params, net: seq<Result>, d: Datapoint, value: int,
                     sequence: int)
    requires Layouts.BuiltIn(p) && p.writable <= p.flagBits.Keys && WellTyped(action, params)
    requires Sendable(p, action, params, net, d, value) && 0 <= sequence < 0x1_0000_0000
    ensures var told := ObeyedRequest(p, d, value, ReadPayload(p, net).0.payload, sequence);
            told.Some? && Shows(p, d, value, told.value)
  {
    Layouts.BuiltInsAreSound(p);
    ReadPayloadFits(p, net);
    WantedIsHeld(p, action, params, ReadPayload(p, net).0.payload, d, value);
    Obeyed(p, d, value, ReadPayload(p, net).0.payload, sequence);
  }

  lemma ReadPayloadFits(p: Profile, net: seq<Result>)
    ensures ReadPayload(p, net).0.Answer? ==> p.FitsPayload(ReadPayload(p, net).0.payload)
  {
  }

  /** The first deciding read among the first `k + 1`, when the last of them decides. */
  lemma {:induction false} FirstUpTo(p: Profile, d: Datapoint, value: int, rs: seq<Result>, k: nat) returns (m: nat)
    requires k < |rs| && Decides(p, d, value, rs[k])
    ensures m <= k && FirstDecides(p, d, value, rs, m)
  {
    m := 0;
    while !Decides(p, d, value, rs[m])
      invariant m <= k && forall i :: 0 <= i < m ==> !Decides(p, d, value, rs[i])
      decreases k - m
    {
      m := m + 1;
    }
  }

  lemma ShownInTime(p: Profile, d: Datapoint, value: int, rs: seq<Result>, k: nat, base: seq<byte>, ending: Ending)
    requires ReadAfterWrite(p, d, value, rs, ending) && NotYet(rs, k, base)
    requires k < |rs| && rs[k].Answer? && Shows(p, d, value, rs[k].payload)
    ensures ending.Applied? && Shows(p, d, value, ending.payload)
    ensures !Shows(p, d, value, base) ==> ending.payload == rs[k].payload
  {
    var m := FirstUpTo(p, d, value, rs, k);
    assert m < k ==> rs[m] == Answer(base);
  }

  /** The block of a controller that was told to write `value` and applied the flagged attribute. */
  function ObeyedRequest(p: Profile, d: Datapoint, value: int, base: seq<byte>, sequence: int): Option<seq<byte>> {
    var e := Encode(p, d, value, base);
    if e.Refused? || p.controlOffset.None? || !(0 <= p.controlOffset.value < |base| - 1) then None
    else match ControlPayload(sequence, e.flags, e.values)
      case None => None
      case Some(body) => Some(Layouts.FlaggedOnly(base, p.controlOffset.value, body))
  }

  lemma Obeyed(p: Profile, d: Datapoint, value: int, base: seq<byte>, sequence: int)
    requires p.Valid() && p.Disjoint() && Layouts.FlagsFollowBlock(p) && 0 <= sequence < 0x1_0000_0000
    requires Encode(p, d, value, base).Control? && p.FitsPayload(base)
    requires d in p.locations && (p.locations[d].ByteAt? || value == 0 || value == 1)
    ensures ObeyedRequest(p, d, value, base, sequence).Some?
    ensures Shows(p, d, value, ObeyedRequest(p, d, value, base, sequence).value)
  {
    Layouts.ControllersAgree(p, d, value, base, sequence);
    ControlWritePrecision(p, d, value, base);
  }

  /** Typed parameters ask for something the datapoint's location can hold. */
  lemma WantedIsHeld(p: Profile, action: Action, params: Params, base: seq<byte>, d: Datapoint, value: int)
    requires Layouts.BuiltIn(p) && WellTyped(action, params) && DatapointOf(action) == Some(d)
    requires WantedValue(p, params, base) == Wanted(value)
    ensures d in p.locations && (p.locations[d].ByteAt? || value == 0 || value == 1)
  {
  }

  // -- polling

  datatype Report = Online(payload: seq<byte>) | Offline

  /** The polling loop: the block last read, whether the controller is known to be gone, and what was
      reported so far. */
  datatype Watch = Watch(previous: Option<seq<byte>>, gone: bool, reports: seq<Report>)

  /** One round of `subscribe`, given what the read came to. */
  function Poll(w: Watch, r: Result): Watch {
    if r.Failed? then Watch(w.previous, true, if w.gone then w.reports else w.reports + [Offline])
    else
      var same := w.previous == Some(r.payload);
      Watch(Some(r.payload), false, if same then w.reports else w.reports + [Online(r.payload)])
  }

  function PollAll(rs: seq<Result>): Watch {
    if rs == [] then Watch(None, false, []) else Poll(PollAll(rs[..|rs| - 1]), rs[|rs| - 1])
  }

  /** Where the stretch of equal results at the end of `rs` begins. */
  function LastStretch(rs: seq<Result>): (j: nat)
    ensures rs != [] ==> j < |rs|
  {
    if |rs| <= 1 then 0
    else if rs[|rs| - 2] == rs[|rs| - 1] then LastStretch(rs[..|rs| - 1])
    else |rs| - 1
  }

  /** What the last report says, exactly: after a failed read it is "offline"; after a successful read it is
      that block, unless the last block read before the present stretch of equal reads was the same one.
      So a controller that goes away and comes back unchanged stays reported as offline. */
  lemma {:induction false} LastReport(rs: seq<Result>)
    requires rs != [] && Failed(PROTOCOL_ERROR) !in rs
    ensures var w, last := PollAll(rs), rs[|rs| - 1];
            && w.reports != [] && w.previous == LastAnswer(rs, None) && w.gone == last.Failed?
            && (w.reports[|w.reports| - 1] ==
                  if last.Failed? || LastAnswer(rs[..LastStretch(rs)], None) == Some(last.payload) then Offline
                  else Online(last.payload))
  {
    var before, last := rs[..|rs| - 1], rs[|rs| - 1];
    if before == [] {
      assert rs[..0] == [];
    } else {
      LastReport(before);
      assert before[|before| - 1] == rs[|rs| - 2];
      if LastStretch(rs) < |before| { assert rs[..LastStretch(rs)] == before[..LastStretch(rs)]; }
      assert before[..LastStretch(before)] <= before;
    }
  }

  /** The silent recovery: one failed read between two equal blocks, and the controller that answers again
      is still reported offline. */
  lemma RecoveryIsSilent(block: seq<byte>)
    ensures PollAll([Answer(block), Failed(UNAVAILABLE), Answer(block)]).reports == [Online(block), Offline]
  {
    var rs := [Answer(block), Failed(UNAVAILABLE), Answer(block)];
    assert rs[..2][..1][..0] == [] && rs[..2][..1] == [rs[0]] && rs[..2] == [rs[0], rs[1]];
    assert PollAll(rs[..2][..1]) == Watch(Some(block), false, [Online(block)]);
    assert PollAll(rs[..2]) == Watch(Some(block), true, [Online(block), Offline]);
  }

  // -- the adapter object

  class BestwayProvider {
    const profile: Profile
    var lastPayload: Option<seq<byte>>
    var availability: DeviceModel.Availability
    var controls: seq<Request>

    constructor (p: Profile)
      ensures profile == p && lastPayload == None && availability == DeviceModel.UNKNOWN_AVAILABILITY && controls == []
    {
      profile, lastPayload, availability, controls := p, None, DeviceModel.UNKNOWN_AVAILABILITY, [];
    }

    /** `_read_with_retry`. */
    method ReadOnce(net: seq<Result>) returns (r: Result, left: seq<Result>)
      ensures (r, left) == ReadWithRetry(net)
    {
      left := net;
      ghost var tries := 0;
      r := Failed(UNAVAILABLE);
      for attempt := 1 to 3
        invariant attempt == 1 ==> left == net
        invariant attempt == 2 ==> Attempt(net) == (Failed(UNAVAILABLE), left)
        invariant attempt == 3 ==> (r, left) == ReadWithRetry(net)
      {
        if left == [] {
          r := Failed(UNAVAILABLE);
        } else {
          r, left := left[0], left[1..];
        }
        if r != Failed(UNAVAILABLE) {
          return;
        }
      }
    }

    /** `_read_payload`: a block that fits is remembered, and makes the controller reachable. */
    method ReadBlock(net: seq<Result>) returns (r: Result, left: seq<Result>)
      modifies this`lastPayload, this`availability
      ensures (r, left) == ReadPayload(profile, net)
      ensures lastPayload == if r.Answer? then Some(r.payload) else old(lastPayload)
      ensures availability == if r.Answer? then DeviceModel.ONLINE else old(availability)
    {
      r, left := ReadOnce(net);
      if r.Failed? {
        return;
      }
      var decoded := Decode(profile, r.payload);
      if decoded.None? {
        return Failed(UNAVAILABLE), left;
      }
      lastPayload := Some(r.payload);
      availability := DeviceModel.ONLINE;
    }

    /** `_confirm`. */
    method ConfirmWrite(d: Datapoint, value: int, net: seq<Result>) returns (c: Confirmed, left: seq<Result>)
      modifies this`lastPayload, this`availability
      ensures (c, left) == Confirm(profile, d, value, net, CONFIRM_ATTEMPTS, None)
      ensures lastPayload == if c.payload.Some? then c.payload else old(lastPayload)
      ensures availability == if c.payload.Some? then DeviceModel.ONLINE else old(availability)
    {
      var latest: Option<seq<byte>> := None;
      left := net;
      for attempt := 0 to CONFIRM_ATTEMPTS
        invariant Confirm(profile, d, value, net, CONFIRM_ATTEMPTS, None)
               == Confirm(profile, d, value, left, CONFIRM_ATTEMPTS - attempt, latest)
        invariant lastPayload == if latest.Some? then latest else old(lastPayload)
        invariant availability == if latest.Some? then DeviceModel.ONLINE else old(availability)
      {
        var r;
        r, left := ReadBlock(left);
        if r == Failed(PROTOCOL_ERROR) {
          return Broke(latest), left;
        }
        if r.Answer? {
          latest := Some(r.payload);
          var decoded := Decode(profile, r.payload);
          if d in decoded.value && decoded.value[d] == value {
            return Latest(latest), left;
          }
        }
      }
      c := Latest(latest);
    }

    /** `execute`: read, modify, write once, read back. */
    method Run(action: Action, params: Params, written: Option<Failure>, net: seq<Result>) returns (ending: Ending)
      requires profile.Valid()
      modifies this
      ensures var e := Execute(profile, action, params, written, net);
              && ending == e.ending && controls == old(controls) + e.controls
              && lastPayload == (if e.seen.Some? then e.seen else old(lastPayload))
              && availability == (if e.seen.Some? then DeviceModel.ONLINE else old(availability))
    {
      assert controls + [] == controls;
      var d := DatapointOf(action);
      if d.None? {
        return Rejected;
      }
      var base, left := ReadBlock(net);
      if base.Failed? {
        return Unread(base.failure);
      }
      var wanted := WantedValue(profile, params, base.payload);
      if wanted.Unusable? {
        return Rejected;
      }
      var encoded := EncodeControl(profile, d.value, wanted.value, base.payload);
      if encoded.Refused? {
        return if encoded.why == NEGATIVE_SHIFT then Crashed else Rejected;
      }
      if encoded.flags >= 0x1_0000 || encoded.values == [] {
        return Crashed;
      }
      controls := controls + [Request(encoded.flags, encoded.values)];
      if written.Some? {
        return Unread(written.value);
      }
      var c;
      c, left := ConfirmWrite(d.value, wanted.value, left);
      ending := AfterConfirm(profile, d.value, wanted.value, c);
    }

    /** One round of `subscribe`; `broke` is the client failing in a way polling does not survive. */
    method PollOnce(previous: Option<seq<byte>>, net: seq<Result>)
      returns (report: Option<Report>, seen: Option<seq<byte>>, broke: bool)
      modifies this`lastPayload, this`availability
      ensures broke == (ReadPayload(profile, net).0 == Failed(PROTOCOL_ERROR))
      ensures broke ==> report == None && seen == previous && availability == old(availability)
      ensures !broke ==>
        var was := Watch(previous, old(availability) == DeviceModel.OFFLINE, []);
        var now := Poll(was, ReadPayload(profile, net).0);
        && seen == now.previous && (availability == DeviceModel.OFFLINE <==> now.gone)
        && now.reports == (if report.Some? then [report.value] else [])
    {
      var r, left := ReadBlock(net);
      report, seen, broke := None, previous, r == Failed(PROTOCOL_ERROR);
      if r.Answer? {
        if previous != Some(r.payload) {
          seen := Some(r.payload);
          report := Some(Online(r.payload));
        }
      } else if !broke && availability != DeviceModel.OFFLINE {
        availability := DeviceModel.OFFLINE;
        report := Some(Offline);
      }
    }
  }
}
