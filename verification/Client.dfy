/** One connection to one controller (integrations/bestway/client.py). What the network does at each
    await is a script: the answers of successive reads and of successive drains. A script that has run
    out is a deadline. */
module Client {
  import opened Basics
  import opened Protocol
  import opened FrameStream

  const READ_CHUNK := 4096

  const PASSCODE_REQUEST: uint16 := 0x0006
  const PASSCODE_RESPONSE: uint16 := 0x0007
  const LOGIN_REQUEST: uint16 := 0x0008
  const LOGIN_RESPONSE: uint16 := 0x0009
  const HEARTBEAT_REQUEST: uint16 := 0x0015
  const HEARTBEAT_RESPONSE: uint16 := 0x0016
  const STATUS_REQUEST: uint16 := 0x0090
  const STATUS_RESPONSE: uint16 := 0x0091
  const CONTROL_REQUEST: uint16 := 0x0093
  const STATUS_READ: seq<byte> := [2]

  const HEARTBEAT := Frame(HEARTBEAT_RESPONSE, [], 0)

  /** `reader.read(4096)`: some bytes, end of stream, a transport error, or no answer in time. */
  datatype Read = Chunk(bytes: seq<byte>) | Eof | ReadFailed | Deadline

  ghost predicate Readable(inbox: seq<Read>) {
    forall i :: 0 <= i < |inbox| && inbox[i].Chunk? ==> 0 < |inbox[i].bytes| <= READ_CHUNK
  }

  datatype Failure = UNAVAILABLE | MISBEHAVED | PROTOCOL_ERROR

  datatype Result = Answer(payload: seq<byte>) | Failed(failure: Failure)

  /** The connection's state: is the socket open, the reassembly buffer, frames not yet consumed, and every
      frame written so far. */
  datatype Conn = Conn(up: bool, buffer: seq<byte>, pending: seq<Frame>, sent: seq<Frame>)

  /** `_send`: written first, then drained. */
  function Send(c: Conn, f: Frame, drains: seq<bool>): (Option<Failure>, Conn, seq<bool>) {
    if !c.up then (Some(UNAVAILABLE), c, drains)
    else if EncodeFrame(f).None? then (Some(PROTOCOL_ERROR), c, drains)
    else
      var c' := Conn(true, c.buffer, c.pending, c.sent + [f]);
      if drains == [] then (Some(UNAVAILABLE), c', [])
      else (if drains[0] then None else Some(UNAVAILABLE), c', drains[1..])
  }

  /** What an exchange leaves behind, with the frames it consumed and the bytes it received. */
  datatype Outcome = Outcome(result: Result, conn: Conn, consumed: seq<Frame>, received: seq<byte>,
                             inbox: seq<Read>, drains: seq<bool>)

  function After(f: Frame, o: Outcome): Outcome { o.(consumed := [f] + o.consumed) }

  function Hearing(bytes: seq<byte>, o: Outcome): Outcome { o.(received := bytes + o.received) }

  /** The receive loop of `_exchange` over `_next_frame`. */
  function Await(c: Conn, wanted: uint16, inbox: seq<Read>, drains: seq<bool>): Outcome
    decreases |inbox|, |c.pending|
  {
    if c.pending != [] then
      var f, c1 := c.pending[0], Conn(c.up, c.buffer, c.pending[1..], c.sent);
      if f.command == wanted then Outcome(Answer(f.payload), c1, [f], [], inbox, drains)
      else if f.command == HEARTBEAT_REQUEST then
        var (failed, c2, drains') := Send(c1, HEARTBEAT, drains);
        if failed.Some? then Outcome(Failed(failed.value), c2, [f], [], inbox, drains')
        else After(f, Await(c2, wanted, inbox, drains'))
      else After(f, Await(c1, wanted, inbox, drains))
    else if !c.up || inbox == [] then Outcome(Failed(UNAVAILABLE), c, [], [], inbox, drains)
    else match inbox[0]
      case Chunk(bytes) =>
        var (fed, buffer) := Feed(c.buffer, bytes);
        if !fed.Frames? then
          Outcome(Failed(MISBEHAVED), Conn(c.up, buffer, [], c.sent), [], bytes, inbox[1..], drains)
        else Hearing(bytes, Await(Conn(c.up, buffer, fed.frames, c.sent), wanted, inbox[1..], drains))
      case _ => Outcome(Failed(UNAVAILABLE), c, [], [], inbox[1..], drains)
  }

  /** `_exchange`. */
  function Exchange(c: Conn, request: Frame, wanted: uint16, inbox: seq<Read>, drains: seq<bool>): Outcome {
    var (failed, c', drains') := Send(c, request, drains);
    if failed.Some? then Outcome(Failed(failed.value), c', [], [], inbox, drains')
    else Await(c', wanted, inbox, drains')
  }

  // -- what the exchanges of one connection add up to

  /** Everything consumed, then everything pending, then the leftover, are in order the parse of
      everything received since the connection was opened. */
  ghost predicate InStep(c: Conn, consumed: seq<Frame>, received: seq<byte>) {
    Parse(received) == Parsed(consumed + c.pending, c.buffer, false)
  }

  /** What an exchange that began in step owes: it ends in step, unless the peer turned out unable to frame;
      then what was consumed is still the beginning of what the peer sent. */
  ghost predicate Conserved(o: Outcome, consumed: seq<Frame>, received: seq<byte>) {
    && Readable(o.inbox)
    && (o.result != Failed(MISBEHAVED) ==> InStep(o.conn, consumed + o.consumed, received + o.received))
    && (o.result == Failed(MISBEHAVED) ==>
          && Parse(received + o.received).bad
          && consumed + o.consumed <= Parse(received + o.received).frames)
  }

  lemma ConservedAfter(o: Outcome, f: Frame, consumed: seq<Frame>, received: seq<byte>)
    requires Conserved(o, consumed + [f], received)
    ensures Conserved(After(f, o), consumed, received)
  {
    assert consumed + ([f] + o.consumed) == consumed + [f] + o.consumed;
  }

  lemma ConservedHearing(o: Outcome, bytes: seq<byte>, consumed: seq<Frame>, received: seq<byte>)
    requires Conserved(o, consumed, received + bytes)
    ensures Conserved(Hearing(bytes, o), consumed, received)
  {
    assert received + (bytes + o.received) == received + bytes + o.received;
  }

  lemma ConservedThen(o: Outcome, later: Outcome, consumed: seq<Frame>, received: seq<byte>)
    requires Conserved(later, consumed + o.consumed, received + o.received)
    ensures Conserved(later.(consumed := o.consumed + later.consumed, received := o.received + later.received),
                      consumed, received)
  {
    assert consumed + (o.consumed + later.consumed) == consumed + o.consumed + later.consumed;
    assert received + (o.received + later.received) == received + o.received + later.received;
  }

  lemma InStepTake(c: Conn, c1: Conn, f: Frame, consumed: seq<Frame>, received: seq<byte>)
    requires InStep(c, consumed, received) && c.pending != [] && f == c.pending[0]
    requires c1.buffer == c.buffer && c1.pending == c.pending[1..]
    ensures InStep(c1, consumed + [f], received)
  {
    assert consumed + c.pending == (consumed + [f]) + c1.pending;
  }

  lemma {:induction false} AwaitConserves(c: Conn, wanted: uint16, inbox: seq<Read>, drains: seq<bool>,
                                          consumed: seq<Frame>, received: seq<byte>)
    requires InStep(c, consumed, received) && Readable(inbox)
    ensures Conserved(Await(c, wanted, inbox, drains), consumed, received)
    decreases |inbox|, |c.pending|
  {
    assert received + [] == received && consumed + [] == consumed;
    if c.pending != [] {
      var f, c1 := c.pending[0], Conn(c.up, c.buffer, c.pending[1..], c.sent);
      InStepTake(c, c1, f, consumed, received);
      if f.command != wanted {
        var (failed, c2, drains') :=
          if f.command == HEARTBEAT_REQUEST then Send(c1, HEARTBEAT, drains) else (None, c1, drains);
        InStepTake(c, c2, f, consumed, received);
        if failed.None? {
          AwaitConserves(c2, wanted, inbox, drains', consumed + [f], received);
          ConservedAfter(Await(c2, wanted, inbox, drains'), f, consumed, received);
        }
      }
    } else if c.up && inbox != [] && inbox[0].Chunk? {
      HeardConserves(c, inbox[0].bytes, consumed, received);
      var (fed, buffer) := Feed(c.buffer, inbox[0].bytes);
      if fed.Frames? {
        var c' := Conn(c.up, buffer, fed.frames, c.sent);
        AwaitConserves(c', wanted, inbox[1..], drains, consumed, received + inbox[0].bytes);
        ConservedHearing(Await(c', wanted, inbox[1..], drains), inbox[0].bytes, consumed, received);
      }
    }
  }

  /** One read, with nothing pending. */
  lemma HeardConserves(c: Conn, bytes: seq<byte>, consumed: seq<Frame>, received: seq<byte>)
    requires InStep(c, consumed, received) && c.pending == [] && |bytes| <= READ_CHUNK
    ensures var (fed, buffer) := Feed(c.buffer, bytes);
            && !fed.Overflow?
            && (fed.Frames? ==> InStep(Conn(c.up, buffer, fed.frames, c.sent), consumed, received + bytes))
            && (fed.BadFrame? ==> Parse(received + bytes).bad && consumed <= Parse(received + bytes).frames)
  {
    assert consumed + [] == consumed;
    LeftoverIsStuck(received);
    SmallChunk(c.buffer, bytes);
    ParseAppend(received, bytes);
  }

  lemma ExchangeConserves(c: Conn, request: Frame, wanted: uint16, inbox: seq<Read>, drains: seq<bool>,
                          consumed: seq<Frame>, received: seq<byte>)
    requires InStep(c, consumed, received) && Readable(inbox)
    ensures Conserved(Exchange(c, request, wanted, inbox, drains), consumed, received)
  {
    assert received + [] == received && consumed + [] == consumed;
    var (failed, c', drains') := Send(c, request, drains);
    if failed.None? {
      AwaitConserves(c', wanted, inbox, drains', consumed, received);
    }
  }

  /** `connect` once the socket is open: nothing buffered, nothing pending, then passcode and login. */
  function Handshake(sent: seq<Frame>, inbox: seq<Read>, drains: seq<bool>): Outcome {
    var o := Exchange(Conn(true, [], [], sent), Frame(PASSCODE_REQUEST, [], 0), PASSCODE_RESPONSE, inbox, drains);
    if o.result.Failed? then o
    else match DecodeLengthPrefixed(o.result.payload)
      case None => o.(result := Failed(PROTOCOL_ERROR))
      case Some(passcode) =>
        if EncodeLengthPrefixed(passcode).None? then o.(result := Failed(PROTOCOL_ERROR))
        else ThenExchange(o, Login(EncodeLengthPrefixed(passcode).value), LOGIN_RESPONSE)
  }

  /** One more exchange on the same connection. */
  function ThenExchange(o: Outcome, request: Frame, wanted: uint16): Outcome {
    var later := Exchange(o.conn, request, wanted, o.inbox, o.drains);
    later.(consumed := o.consumed + later.consumed, received := o.received + later.received)
  }

  /** The passcode the controller hands out in the first exchange of a connection, if it gets that far. */
  function PasscodeOf(sent: seq<Frame>, inbox: seq<Read>, drains: seq<bool>): Option<seq<byte>> {
    var ask := Frame(PASSCODE_REQUEST, [], 0);
    var o := Exchange(Conn(true, [], [], sent), ask, PASSCODE_RESPONSE, inbox, drains);
    if o.result.Failed? then None else DecodeLengthPrefixed(o.result.payload)
  }

  function Login(field: seq<byte>): Frame { Frame(LOGIN_REQUEST, field, 0) }

  /** A new connection starts in step, whatever an earlier one left behind. */
  lemma HandshakeInStep(sent: seq<Frame>, inbox: seq<Read>, drains: seq<bool>)
    requires Readable(inbox)
    ensures Conserved(Handshake(sent, inbox, drains), [], [])
  {
    var c := Conn(true, [], [], sent);
    assert InStep(c, [], []);
    var ask := Frame(PASSCODE_REQUEST, [], 0);
    ExchangeConserves(c, ask, PASSCODE_RESPONSE, inbox, drains, [], []);
    var o := Exchange(c, ask, PASSCODE_RESPONSE, inbox, drains);
    if o.result.Answer? {
      var passcode := DecodeLengthPrefixed(o.result.payload);
      if passcode.Some? && EncodeLengthPrefixed(passcode.value).Some? {
        LoginConserves(o, Login(EncodeLengthPrefixed(passcode.value).value));
      }
    }
  }

  lemma LoginConserves(o: Outcome, login: Frame)
    requires Conserved(o, [], []) && o.result.Answer?
    ensures Conserved(ThenExchange(o, login, LOGIN_RESPONSE), [], [])
  {
    ExchangeConserves(o.conn, login, LOGIN_RESPONSE, o.inbox, o.drains, [] + o.consumed, [] + o.received);
    ConservedThen(o, Exchange(o.conn, login, LOGIN_RESPONSE, o.inbox, o.drains), [], []);
  }

  /** A run of exchanges on one connection, up to the first peer that cannot frame. */
  function RunAll(c: Conn, asks: seq<(Frame, uint16)>, inbox: seq<Read>, drains: seq<bool>): Outcome
    decreases |asks|
  {
    if asks == [] then Outcome(Answer([]), c, [], [], inbox, drains)
    else
      var o := Exchange(c, asks[0].0, asks[0].1, inbox, drains);
      if o.result == Failed(MISBEHAVED) then o
      else
        var later := RunAll(o.conn, asks[1..], o.inbox, o.drains);
        later.(consumed := o.consumed + later.consumed, received := o.received + later.received)
  }

  /** Exchange conservation: on one connection no frame is lost, invented or reordered, whatever was asked,
      whatever timed out. Only a peer that cannot frame ends this, and then what was consumed is still the
      beginning of what it sent. */
  lemma {:induction false} ExchangesConserve(c: Conn, asks: seq<(Frame, uint16)>, inbox: seq<Read>,
                                             drains: seq<bool>, consumed: seq<Frame>, received: seq<byte>)
    requires InStep(c, consumed, received) && Readable(inbox)
    ensures Conserved(RunAll(c, asks, inbox, drains), consumed, received)
    decreases |asks|
  {
    assert received + [] == received && consumed + [] == consumed;
    if asks != [] {
      var o := Exchange(c, asks[0].0, asks[0].1, inbox, drains);
      ExchangeConserves(c, asks[0].0, asks[0].1, inbox, drains, consumed, received);
      if o.result != Failed(MISBEHAVED) {
        ExchangesConserve(o.conn, asks[1..], o.inbox, o.drains, consumed + o.consumed, received + o.received);
        ConservedThen(o, RunAll(o.conn, asks[1..], o.inbox, o.drains), consumed, received);
      }
    }
  }

  // -- which frame answers, and what is replied meanwhile

  function Replies(consumed: seq<Frame>): seq<Frame> {
    if consumed == [] then []
    else (if consumed[0].command == HEARTBEAT_REQUEST then [HEARTBEAT] else []) + Replies(consumed[1..])
  }

  ghost predicate Answers(o: Outcome, wanted: uint16) {
    && o.consumed != []
    && var last := o.consumed[|o.consumed| - 1];
       last.command == wanted && o.result == Answer(last.payload)
  }

  ghost predicate NoneOf(frames: seq<Frame>, wanted: uint16) {
    forall i :: 0 <= i < |frames| ==> frames[i].command != wanted
  }

  /** The result is the first matching frame's payload, and only heartbeat requests were replied to. */
  ghost predicate FirstMatch(sent: seq<Frame>, o: Outcome, wanted: uint16) {
    && o.conn.sent == sent + Replies(o.consumed)
    && (if o.result.Answer? then Answers(o, wanted) && NoneOf(o.consumed[..|o.consumed| - 1], wanted)
        else NoneOf(o.consumed, wanted))
  }

  /** The loop answers with the first matching frame, and sends nothing but one heartbeat reply for each
      heartbeat request it consumed before that. */
  lemma {:induction false} FirstMatchAnswers(c: Conn, wanted: uint16, inbox: seq<Read>, drains: seq<bool>)
    requires c.up && wanted != HEARTBEAT_REQUEST
    ensures FirstMatch(c.sent, Await(c, wanted, inbox, drains), wanted)
    decreases |inbox|, |c.pending|
  {
    assert c.sent + [] == c.sent;
    if c.pending != [] {
      var f, c1 := c.pending[0], Conn(c.up, c.buffer, c.pending[1..], c.sent);
      assert [f][1..] == [] && Replies([f]) == (if f.command == HEARTBEAT_REQUEST then [HEARTBEAT] else []);
      if f.command != wanted {
        var (failed, c2, drains') :=
          if f.command == HEARTBEAT_REQUEST then Send(c1, HEARTBEAT, drains) else (None, c1, drains);
        if failed.None? {
          FirstMatchAnswers(c2, wanted, inbox, drains');
          MatchLater(c.sent, f, c2.sent, Await(c2, wanted, inbox, drains'), wanted);
        }
      }
    } else if inbox != [] && inbox[0].Chunk? {
      var (fed, buffer) := Feed(c.buffer, inbox[0].bytes);
      if fed.Frames? {
        var c' := Conn(c.up, buffer, fed.frames, c.sent);
        FirstMatchAnswers(c', wanted, inbox[1..], drains);
        assert FirstMatch(c.sent, Hearing(inbox[0].bytes, Await(c', wanted, inbox[1..], drains)), wanted);
      }
    }
  }

  lemma MatchLater(sent: seq<Frame>, f: Frame, sent2: seq<Frame>, o: Outcome, wanted: uint16)
    requires f.command != wanted && FirstMatch(sent2, o, wanted)
    requires sent2 == sent + (if f.command == HEARTBEAT_REQUEST then [HEARTBEAT] else [])
    ensures FirstMatch(sent, After(f, o), wanted)
  {
    var all := [f] + o.consumed;
    assert all[1..] == o.consumed;
    if o.result.Answer? {
      assert all[..|all| - 1] == [f] + o.consumed[..|o.consumed| - 1];
    }
  }

  /** An answer is only taken when everything sent on the way to it was drained. */
  ghost predicate AllDrained(sent: seq<Frame>, drains: seq<bool>, o: Outcome) {
    o.result.Answer? ==>
      && |sent| <= |o.conn.sent| <= |sent| + |drains|
      && var n := |o.conn.sent| - |sent|;
         o.drains == drains[n..] && forall i :: 0 <= i < n ==> drains[i]
  }

  lemma {:induction false} AwaitDrained(c: Conn, wanted: uint16, inbox: seq<Read>, drains: seq<bool>)
    ensures AllDrained(c.sent, drains, Await(c, wanted, inbox, drains))
    decreases |inbox|, |c.pending|
  {
    if c.pending != [] {
      var f, c1 := c.pending[0], Conn(c.up, c.buffer, c.pending[1..], c.sent);
      if f.command != wanted {
        var (failed, c2, drains') :=
          if f.command == HEARTBEAT_REQUEST then Send(c1, HEARTBEAT, drains) else (None, c1, drains);
        if failed.None? {
          AwaitDrained(c2, wanted, inbox, drains');
          DrainedLater(c.sent, c2.sent, drains, drains', Await(c2, wanted, inbox, drains'));
        }
      }
    } else if c.up && inbox != [] && inbox[0].Chunk? {
      var (fed, buffer) := Feed(c.buffer, inbox[0].bytes);
      if fed.Frames? { AwaitDrained(Conn(c.up, buffer, fed.frames, c.sent), wanted, inbox[1..], drains); }
    }
  }

  lemma DrainedLater(sent: seq<Frame>, sent': seq<Frame>, drains: seq<bool>, drains': seq<bool>, o: Outcome)
    requires AllDrained(sent', drains', o)
    requires (sent' == sent && drains' == drains)
             || (|sent'| == |sent| + 1 && drains != [] && drains[0] && drains' == drains[1..])
    ensures AllDrained(sent, drains, o)
  {
    if o.result.Answer? && drains' != drains {
      var n := |o.conn.sent| - |sent|;
      assert forall i :: 0 < i < n ==> drains[i] == drains'[i - 1];
      assert drains'[n - 1..] == drains[n..];
    }
  }

  lemma ExchangeDrained(c: Conn, request: Frame, wanted: uint16, inbox: seq<Read>, drains: seq<bool>)
    ensures AllDrained(c.sent, drains, Exchange(c, request, wanted, inbox, drains))
  {
    var (failed, c', drains') := Send(c, request, drains);
    if failed.None? {
      AwaitDrained(c', wanted, inbox, drains');
      DrainedLater(c.sent, c'.sent, drains, drains', Await(c', wanted, inbox, drains'));
    }
  }

  lemma ExchangeMatches(c: Conn, request: Frame, wanted: uint16, inbox: seq<Read>, drains: seq<bool>)
    requires Exchange(c, request, wanted, inbox, drains).result.Answer? && wanted != HEARTBEAT_REQUEST
    ensures FirstMatch(c.sent + [request], Exchange(c, request, wanted, inbox, drains), wanted)
  {
    var (_, c', drains') := Send(c, request, drains);
    FirstMatchAnswers(c', wanted, inbox, drains');
  }

  // -- what it takes to be connected

  /** Two bytes of length, most significant first, and that many bytes. */
  predicate Prefixed(payload: seq<byte>, field: seq<byte>) {
    |payload| >= 2 && payload[0] as int * 256 + payload[1] as int == |payload| - 2 && payload[2..] == field
  }

  /** The passcode a controller's answer carries: length-prefixed or, failing that, bare. */
  predicate HandsOut(payload: seq<byte>, passcode: seq<byte>) {
    Prefixed(payload, passcode)
    || (payload == passcode && |payload| >= 2 && payload[0] as int * 256 + payload[1] as int != |payload| - 2)
  }

  /** What has gone over the connection when a handshake succeeds: the passcode request out and its first answer
      in, then the login with just that passcode out and its first answer in, and besides that only a reply for
      each heartbeat request. */
  ghost predicate LoggedIn(sent: seq<Frame>, o: Outcome, passcode: seq<byte>, first: seq<Frame>, login: Frame,
                           second: seq<Frame>)
  {
    && o.consumed == first + second && first != [] && second != []
    && first[|first| - 1].command == 0x0007 && HandsOut(first[|first| - 1].payload, passcode)
    && second[|second| - 1].command == 0x0009
    && NoneOf(first[..|first| - 1], 0x0007) && NoneOf(second[..|second| - 1], 0x0009)
    && login.command == 0x0008 && Prefixed(login.payload, passcode)
    && o.conn.sent == sent + [Frame(0x0006, [], 0)] + Replies(first) + [login] + Replies(second)
  }

  /** A connection counts as open only after the whole handshake: the passcode was handed out on it and the
      login with that passcode was answered. */
  lemma ConnectedIsLoggedIn(sent: seq<Frame>, inbox: seq<Read>, drains: seq<bool>)
    returns (passcode: seq<byte>, first: seq<Frame>, login: Frame, second: seq<Frame>)
    requires Handshake(sent, inbox, drains).result.Answer?
    ensures PasscodeOf(sent, inbox, drains) == Some(passcode)
    ensures LoggedIn(sent, Handshake(sent, inbox, drains), passcode, first, login, second)
  {
    var c, ask := Conn(true, [], [], sent), Frame(PASSCODE_REQUEST, [], 0);
    var o := Exchange(c, ask, PASSCODE_RESPONSE, inbox, drains);
    ExchangeMatches(c, ask, PASSCODE_RESPONSE, inbox, drains);
    passcode := DecodeLengthPrefixed(o.result.payload).value;
    login := Login(EncodeLengthPrefixed(passcode).value);
    assert login.payload[2..] == passcode;
    var later := Exchange(o.conn, login, LOGIN_RESPONSE, o.inbox, o.drains);
    ExchangeMatches(o.conn, login, LOGIN_RESPONSE, o.inbox, o.drains);
    first, second := o.consumed, later.consumed;
  }

  lemma {:induction false} RepliesAreHeartbeats(consumed: seq<Frame>)
    ensures forall i :: 0 <= i < |Replies(consumed)| ==> Replies(consumed)[i] == Frame(0x0016, [], 0)
    ensures Replies(consumed) == [] <==> NoneOf(consumed, 0x0015)
  {
    if consumed != [] {
      RepliesAreHeartbeats(consumed[1..]);
      assert forall i :: 0 < i < |consumed| ==> consumed[i] == consumed[1..][i - 1];
    }
  }

  // -- the object

  class BestwayClient {
    var up: bool
    var reader: FrameReader
    var pending: seq<Frame>
    var passcode: seq<byte>
    var sequence: nat
    var sent: seq<Frame>

    function Value(): Conn
      reads this, reader
    {
      Conn(up, reader.buffer, pending, sent)
    }

    constructor ()
      ensures Value() == Conn(false, [], [], []) && sequence == 0 && passcode == [] && fresh(reader)
    {
      up, pending, passcode, sequence, sent := false, [], [], 0, [];
      reader := new FrameReader();
    }

    /** `close`. */
    method Close()
      modifies this`up, this`passcode
      ensures !up && passcode == []
    {
      up, passcode := false, [];
    }

    method SendFrame(f: Frame, drains: seq<bool>) returns (failed: Option<Failure>, left: seq<bool>)
      modifies this`sent
      ensures (failed, Value(), left) == Send(old(Value()), f, drains)
    {
      left := drains;
      if !up {
        return Some(UNAVAILABLE), left;
      }
      if EncodeFrame(f).None? {
        return Some(PROTOCOL_ERROR), left;
      }
      sent := sent + [f];
      if left == [] {
        return Some(UNAVAILABLE), left;
      }
      failed := if left[0] then None else Some(UNAVAILABLE);
      left := left[1..];
    }

    /** `_exchange` over `_next_frame`: the answer, and what the network script has left. */
    method Ask(request: Frame, wanted: uint16, inbox: seq<Read>, drains: seq<bool>)
      returns (r: Result, left: seq<Read>, drainsLeft: seq<bool>)
      modifies this`sent, this`pending, reader
      ensures var o := Exchange(old(Value()), request, wanted, inbox, drains);
              r == o.result && Value() == o.conn && left == o.inbox && drainsLeft == o.drains
    {
      ghost var goal := Exchange(Value(), request, wanted, inbox, drains);
      var failed;
      left := inbox;
      failed, drainsLeft := SendFrame(request, drains);
      if failed.Some? {
        return Failed(failed.value), left, drainsLeft;
      }
      while true
        invariant SameEnd(Await(Value(), wanted, left, drainsLeft), goal)
        decreases |left|, |pending|
      {
        if pending != [] {
          var f := pending[0];
          pending := pending[1..];
          if f.command == wanted {
            return Answer(f.payload), left, drainsLeft;
          }
          if f.command == HEARTBEAT_REQUEST {
            failed, drainsLeft := SendFrame(HEARTBEAT, drainsLeft);
            if failed.Some? {
              return Failed(failed.value), left, drainsLeft;
            }
          }
          continue;
        }
        if !up || left == [] {
          return Failed(UNAVAILABLE), left, drainsLeft;
        }
        var heard := left[0];
        left := left[1..];
        if !heard.Chunk? {
          return Failed(UNAVAILABLE), left, drainsLeft;
        }
        var fed := reader.FeedChunk(heard.bytes);
        if !fed.Frames? {
          return Failed(MISBEHAVED), left, drainsLeft;
        }
        pending := fed.frames;
      }
    }

    /** `read_status`. */
    method ReadStatus(inbox: seq<Read>, drains: seq<bool>)
      returns (r: Result, left: seq<Read>, drainsLeft: seq<bool>)
      modifies this`sent, this`pending, reader
      ensures var o := Exchange(old(Value()), Frame(STATUS_REQUEST, STATUS_READ, 0), STATUS_RESPONSE, inbox, drains);
              r == o.result && Value() == o.conn && left == o.inbox && drainsLeft == o.drains
    {
      r, left, drainsLeft := Ask(Frame(STATUS_REQUEST, STATUS_READ, 0), STATUS_RESPONSE, inbox, drains);
    }

    /** `send_control`: each request carries the next sequence number, modulo 2^32. */
    method SendControl(flags: int, values: seq<byte>, drains: seq<bool>) returns (failed: Option<Failure>)
      modifies this`sequence, this`sent
      ensures sequence == (old(sequence) + 1) % 0x1_0000_0000
      ensures match ControlPayload(sequence, flags, values)
        case None => failed == Some(PROTOCOL_ERROR) && sent == old(sent)
        case Some(payload) =>
          var o := Send(old(Value()), Frame(CONTROL_REQUEST, payload, 0), drains);
          failed == o.0 && Value() == o.1
    {
      sequence := (sequence + 1) % 0x1_0000_0000;
      var payload := ControlPayload(sequence, flags, values);
      if payload.None? {
        return Some(PROTOCOL_ERROR);
      }
      var left;
      failed, left := SendFrame(Frame(CONTROL_REQUEST, payload.value, 0), drains);
    }

    /** `connect`: a new reader, nothing pending, then passcode and login; a failure closes again. */
    method Connect(accepted: bool, inbox: seq<Read>, drains: seq<bool>) returns (failed: Option<Failure>)
      modifies this
      ensures fresh(reader) || reader == old(reader)
      ensures sequence == old(sequence)
      ensures !accepted ==> failed == Some(UNAVAILABLE) && sent == old(sent)
      ensures accepted ==>
        var o := Handshake(old(sent), inbox, drains);
        && failed == (if o.result.Failed? then Some(o.result.failure) else None)
        && sent == o.conn.sent && pending == o.conn.pending && reader.buffer == o.conn.buffer
      ensures up == (failed == None) && (failed != None ==> passcode == [])
      ensures failed == None ==> Some(passcode) == PasscodeOf(old(sent), inbox, drains)
    {
      Close();
      if !accepted {
        return Some(UNAVAILABLE);
      }
      up := true;
      reader := new FrameReader();
      pending := [];
      var r, left, drainsLeft := Ask(Frame(PASSCODE_REQUEST, [], 0), PASSCODE_RESPONSE, inbox, drains);
      if r.Answer? {
        var field := DecodeLengthPrefixed(r.payload);
        if field.None? || EncodeLengthPrefixed(field.value).None? {
          r := Failed(PROTOCOL_ERROR);
        } else {
          passcode := field.value;
          r, left, drainsLeft := Ask(Login(EncodeLengthPrefixed(passcode).value), LOGIN_RESPONSE, left, drainsLeft);
        }
      }
      if r.Failed? {
        Close();
        return Some(r.failure);
      }
      failed := None;
    }
  }

  /** Two outcomes that end alike; what was consumed and received on the way is history. */
  predicate SameEnd(a: Outcome, b: Outcome) {
    a.result == b.result && a.conn == b.conn && a.inbox == b.inbox && a.drains == b.drains
  }
}
