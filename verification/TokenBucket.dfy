/** One token bucket against its sliding-window specification (ratelimit.py). */
module TokenBucket {
  import opened Basics

  datatype Bucket = Bucket(tokens: real, updatedAt: real)

  function Elapsed(b: Bucket, now: real): real { if now < b.updatedAt then 0.0 else now - b.updatedAt }

  /** The level a bucket has refilled to. */
  function Level(rate: real, burst: real, b: Bucket, now: real): real {
    MinReal(burst, b.tokens + rate * Elapsed(b, now))
  }

  /** What a call leaves of the level it found; it is admitted when that is at least one token. */
  function Spent(level: real, now: real): Bucket {
    Bucket(if level < 1.0 then level else level - 1.0, now)
  }

  /** A call a bucket has seen: when, and whether it was admitted. */
  datatype Stamp = Stamp(at: real, admitted: bool)

  /** How many calls were admitted from number `i` on. */
  function Admitted(log: seq<Stamp>, i: nat): nat {
    if |log| <= i then 0
    else Admitted(log[..|log| - 1], i) + if log[|log| - 1].admitted then 1 else 0
  }

  /** What the window that opens with call `i` leaves at time `now`. */
  function Left(rate: real, burst: real, log: seq<Stamp>, i: nat, now: real): real
    requires i < |log|
  {
    burst + rate * (now - log[i].at) - Admitted(log, i) as real
  }

  /** The tokens are exactly the least that any window leaves. */
  ghost predicate LeastLeft(rate: real, burst: real, log: seq<Stamp>, tokens: real, now: real) {
    && (forall i :: 0 <= i < |log| ==> tokens <= Left(rate, burst, log, i, now))
    && (exists i :: 0 <= i < |log| && tokens == Left(rate, burst, log, i, now))
  }

  ghost predicate Windowed(rate: real, burst: real, log: seq<Stamp>, b: Bucket) {
    && log != [] && b.updatedAt == log[|log| - 1].at
    && LeastLeft(rate, burst, log, b.tokens, b.updatedAt)
  }

  lemma Distribute(rate: real, a: real, b: real, c: real)
    ensures rate * (a - c) == rate * (b - c) + rate * (a - b)
  {
  }

  lemma Later(rate: real, burst: real, log: seq<Stamp>, i: nat, earlier: real, now: real)
    requires i < |log|
    ensures Left(rate, burst, log, i, now) == Left(rate, burst, log, i, earlier) + rate * (now - earlier)
  {
    Distribute(rate, now, earlier, log[i].at);
  }

  /** All windows grow alike. */
  lemma LeastLater(rate: real, burst: real, log: seq<Stamp>, tokens: real, earlier: real, now: real)
    requires LeastLeft(rate, burst, log, tokens, earlier)
    ensures LeastLeft(rate, burst, log, tokens + rate * (now - earlier), now)
  {
    var gain := rate * (now - earlier);
    forall i | 0 <= i < |log| ensures tokens + gain <= Left(rate, burst, log, i, now) {
      Later(rate, burst, log, i, earlier, now);
    }
    var i :| 0 <= i < |log| && tokens == Left(rate, burst, log, i, earlier);
    Later(rate, burst, log, i, earlier, now);
  }

  lemma AdmittedStep(log: seq<Stamp>, s: Stamp, i: nat)
    requires i <= |log|
    ensures Admitted(log + [s], i) == Admitted(log, i) + if s.admitted then 1 else 0
    ensures i == |log| ==> Admitted(log, i) == 0
  {
    assert (log + [s])[..|log|] == log;
  }

  lemma LeftStep(rate: real, burst: real, log: seq<Stamp>, s: Stamp, i: nat)
    requires i <= |log|
    ensures Left(rate, burst, log + [s], i, s.at)
            == (if i < |log| then Left(rate, burst, log, i, s.at) else burst) - if s.admitted then 1.0 else 0.0
  {
    AdmittedStep(log, s, i);
  }

  /** A call that found `level`, the least of the windows and the burst. */
  lemma CallWindowed(rate: real, burst: real, log: seq<Stamp>, level: real, now: real)
    requires level == burst || (level < burst && exists i :: 0 <= i < |log| && level == Left(rate, burst, log, i, now))
    requires forall i :: 0 <= i < |log| ==> level <= Left(rate, burst, log, i, now)
    ensures Windowed(rate, burst, log + [Stamp(now, level >= 1.0)], Spent(level, now))
  {
    var s := Stamp(now, level >= 1.0);
    var log' := log + [s];
    var after := Spent(level, now).tokens;
    forall i | 0 <= i < |log'| ensures after <= Left(rate, burst, log', i, now) {
      LeftStep(rate, burst, log, s, i);
    }
    var i := |log|;
    if level < burst { i :| 0 <= i < |log| && level == Left(rate, burst, log, i, now); }
    LeftStep(rate, burst, log, s, i);
  }

  /** The level a later call finds is the least any window leaves, or a full bucket if that is less. */
  lemma LevelIsLeast(rate: real, burst: real, log: seq<Stamp>, b: Bucket, now: real)
    requires Windowed(rate, burst, log, b) && b.updatedAt <= now
    ensures var level := Level(rate, burst, b, now);
            && (forall i :: 0 <= i < |log| ==> level <= Left(rate, burst, log, i, now))
            && (level == burst ||
                (level < burst && exists i :: 0 <= i < |log| && level == Left(rate, burst, log, i, now)))
  {
    LeastLater(rate, burst, log, b.tokens, b.updatedAt, now);
  }

  /** The law of one bucket: a call is admitted if and only if a single call fits the burst, and every window
      that opens with an earlier call has room for one more. */
  lemma AdmittedIffWindowsPermit(rate: real, burst: real, log: seq<Stamp>, b: Bucket, now: real)
    requires Windowed(rate, burst, log, b) && b.updatedAt <= now
    ensures Level(rate, burst, b, now) >= 1.0 <==>
              burst >= 1.0 && forall i :: 0 <= i < |log| ==> Left(rate, burst, log, i, now) >= 1.0
  {
    LevelIsLeast(rate, burst, log, b, now);
    var level := Level(rate, burst, b, now);
    if level < burst {
      var i :| 0 <= i < |log| && level == Left(rate, burst, log, i, now);
    }
  }

  /** Tokens never run below zero, so no window ever admits more than burst + rate * its length. */
  lemma WindowBound(rate: real, burst: real, log: seq<Stamp>, b: Bucket, i: nat)
    requires Windowed(rate, burst, log, b) && b.tokens >= 0.0 && i < |log|
    ensures Admitted(log, i) as real <= burst + rate * (log[|log| - 1].at - log[i].at)
  {
    assert b.tokens <= Left(rate, burst, log, i, b.updatedAt);
  }
}
