/** Token buckets, one per key, in a bounded least-recently-used table (ratelimit.py). */
module RateLimiter {
  import opened Basics
  import opened OrderedDicts
  import opened TokenBucket
  import Lru

  datatype Config = Config(rate: real, burst: real, maxKeys: nat)

  type Buckets = OrderedDict<string, Bucket>

  /** The level a call for `key` finds. */
  function Found(c: Config, d: Buckets, key: string, now: real): real {
    if key in d.entries then Level(c.rate, c.burst, d.entries[key], now) else c.burst
  }

  function Placed(c: Config, d: Buckets, key: string): Buckets {
    if key in d.entries then d.MoveToEnd(key)
    else if |d.entries| >= c.maxKeys && d.order != [] then d.PopOldest()
    else d
  }

  /** `allow`. */
  function Allow(c: Config, d: Buckets, key: string, now: real): (bool, Buckets) {
    var level := Found(c, d, key, now);
    (level >= 1.0, Placed(c, d, key).Put(key, Spent(level, now)))
  }

  datatype Call = Call(key: string, at: real)

  /** A run: the table, and the answer to each call. */
  datatype Trace = Trace(buckets: Buckets, said: seq<bool>)

  function After(c: Config, t: Trace, call: Call): Trace {
    var (yes, d) := Allow(c, t.buckets, call.key, call.at);
    Trace(d, t.said + [yes])
  }

  function Run(c: Config, h: seq<Call>): (t: Trace)
    ensures |t.said| == |h|
  {
    if h == [] then Trace(OrderedDict([], map[]), []) else After(c, Run(c, h[..|h| - 1]), h[|h| - 1])
  }

  function Keys(h: seq<Call>): (ks: seq<string>)
    ensures |ks| == |h| && forall i :: 0 <= i < |h| ==> ks[i] == h[i].key
  {
    if h == [] then [] else Keys(h[..|h| - 1]) + [h[|h| - 1].key]
  }

  ghost predicate Monotone(h: seq<Call>) {
    forall i, j :: 0 <= i < j < |h| ==> h[i].at <= h[j].at
  }

  /** The calls for `key` from index `from` on, with the answers they got. */
  function Stamps(h: seq<Call>, said: seq<bool>, key: string, from: nat): seq<Stamp>
    requires |said| == |h|
    decreases |h|
  {
    if |h| <= from then []
    else
      var last := h[|h| - 1];
      Stamps(h[..|h| - 1], said[..|h| - 1], key, from)
      + if last.key == key then [Stamp(last.at, said[|h| - 1])] else []
  }

  /** The calls made on the bucket `key` has now. */
  function OnBucket(c: Config, h: seq<Call>, said: seq<bool>, key: string): seq<Stamp>
    requires |said| == |h|
  {
    Stamps(h, said, key, Lru.Born(c.maxKeys, Keys(h), key))
  }

  lemma StampsStep(h: seq<Call>, said: seq<bool>, call: Call, yes: bool, key: string, from: nat)
    requires |said| == |h| && from <= |h|
    ensures Stamps(h + [call], said + [yes], key, from)
            == Stamps(h, said, key, from) + if call.key == key then [Stamp(call.at, yes)] else []
    ensures from == |h| ==> Stamps(h, said, key, from) == []
  {
    assert (h + [call])[..|h|] == h && (said + [yes])[..|h|] == said;
  }

  // -- which keys are held

  lemma OrderMatches(d: Buckets)
    requires d.Valid()
    ensures |d.order| == |d.entries| && forall k :: k in d.order <==> k in d.entries
  {
    SizeIsOrder(d);
    forall k ensures k in d.order <==> k in d.entries {
      assert k in d.order <==> k in Elems(d.order);
    }
  }

  lemma AllowTouches(c: Config, d: Buckets, key: string, now: real)
    requires d.Valid() && c.maxKeys > 0
    ensures Allow(c, d, key, now).1.Valid()
    ensures Allow(c, d, key, now).1.order == Lru.Touch(c.maxKeys, d.order, key)
  {
    OrderMatches(d);
    var placed := Placed(c, d, key);
    if key !in d.entries {
      OrderMatches(placed);
      WithoutExactly(placed.order, key);
    }
    assert placed.Valid();
  }

  /** The table holds exactly the keys a least-recently-used table of its size holds. */
  lemma {:induction false} HeldKeys(c: Config, h: seq<Call>)
    requires c.maxKeys > 0
    ensures var d := Run(c, h).buckets;
            && d.Valid() && d.order == Lru.Run(c.maxKeys, Keys(h))
            && forall k :: k in d.entries <==> k in Lru.Run(c.maxKeys, Keys(h))
  {
    if h != [] {
      var before, last := h[..|h| - 1], h[|h| - 1];
      HeldKeys(c, before);
      AllowTouches(c, Run(c, before).buckets, last.key, last.at);
      Lru.HistoryStep(c.maxKeys, Keys(before), last.key, last.key);
    }
    OrderMatches(Run(c, h).buckets);
  }

  predicate InRange(c: Config, b: Bucket) { 0.0 <= b.tokens <= c.burst }

  lemma SpentInRange(c: Config, d: Buckets, key: string, now: real)
    requires c.rate >= 0.0 && c.burst >= 0.0 && (key in d.entries ==> InRange(c, d.entries[key]))
    ensures InRange(c, Spent(Found(c, d, key, now), now))
  {
    if key in d.entries { assert c.rate * Elapsed(d.entries[key], now) >= 0.0; }
  }

  lemma AllowChanges(c: Config, d: Buckets, call: Call, key: string)
    requires key in Allow(c, d, call.key, call.at).1.entries
    ensures var b := Allow(c, d, call.key, call.at).1.entries[key];
            if key == call.key then b == Spent(Found(c, d, key, call.at), call.at)
            else key in d.entries && b == d.entries[key]
  {
  }

  /** Whatever the clock does, backwards included, no bucket is ever below zero or above the burst. */
  lemma {:induction false} LevelsStayInRange(c: Config, h: seq<Call>, key: string)
    requires c.rate >= 0.0 && c.burst >= 0.0 && key in Run(c, h).buckets.entries
    ensures InRange(c, Run(c, h).buckets.entries[key])
  {
    var before, last := h[..|h| - 1], h[|h| - 1];
    var d := Run(c, before).buckets;
    if key in d.entries { LevelsStayInRange(c, before, key); }
    AllowChanges(c, d, last, key);
    if key == last.key { SpentInRange(c, d, key, last.at); }
  }

  // -- what a bucket knows about the past

  ghost predicate Sound(c: Config, log: seq<Stamp>, b: Bucket) {
    && Windowed(c.rate, c.burst, log, b)
    && (c.burst >= 0.0 && c.rate >= 0.0 ==> b.tokens >= 0.0)
  }

  /** A call on a bucket that is held. */
  lemma SoundAgain(c: Config, log: seq<Stamp>, b: Bucket, now: real)
    requires Sound(c, log, b) && b.updatedAt <= now
    ensures var level := Level(c.rate, c.burst, b, now);
            Sound(c, log + [Stamp(now, level >= 1.0)], Spent(level, now))
  {
    var level := Level(c.rate, c.burst, b, now);
    LevelIsLeast(c.rate, c.burst, log, b, now);
    CallWindowed(c.rate, c.burst, log, level, now);
    if c.burst >= 0.0 && c.rate >= 0.0 {
      assert c.rate * Elapsed(b, now) >= 0.0;
    }
  }

  lemma SoundNew(c: Config, now: real)
    ensures Sound(c, [Stamp(now, c.burst >= 1.0)], Spent(c.burst, now))
  {
    CallWindowed(c.rate, c.burst, [], c.burst, now);
    assert [] + [Stamp(now, c.burst >= 1.0)] == [Stamp(now, c.burst >= 1.0)];
  }

  /** One call, seen from `key`: what was on its bucket, and what is now. */
  lemma SoundStep(c: Config, d: Buckets, log: seq<Stamp>, log': seq<Stamp>, call: Call, key: string)
    requires key in d.entries ==> Sound(c, log, d.entries[key]) && d.entries[key].updatedAt <= call.at
    requires key in Allow(c, d, call.key, call.at).1.entries
    requires var stamp := [Stamp(call.at, Allow(c, d, call.key, call.at).0)];
             log' == if call.key != key then log else if key in d.entries then log + stamp else stamp
    ensures Sound(c, log', Allow(c, d, call.key, call.at).1.entries[key])
  {
    if call.key == key {
      if key in d.entries {
        SoundAgain(c, log, d.entries[key], call.at);
      } else {
        SoundNew(c, call.at);
      }
    }
  }

  /** In every run with a monotone clock, each held bucket is exactly what its own calls make it. */
  lemma {:induction false} BucketSound(c: Config, h: seq<Call>, key: string)
    requires c.maxKeys > 0 && Monotone(h) && key in Run(c, h).buckets.entries
    ensures Sound(c, OnBucket(c, h, Run(c, h).said, key), Run(c, h).buckets.entries[key])
  {
    var before, last := h[..|h| - 1], h[|h| - 1];
    var t := Run(c, before);
    if key in t.buckets.entries {
      BucketSound(c, before, key);
      BucketIsPast(c, before, last, key, t.buckets.entries[key]);
    }
    assert h == before + [last];
    OnBucketStep(c, before, last, key, t);
    SoundStep(c, t.buckets, OnBucket(c, before, t.said, key), OnBucket(c, h, Run(c, h).said, key), last, key);
  }

  lemma OnBucketStep(c: Config, h: seq<Call>, call: Call, key: string, t: Trace)
    requires c.maxKeys > 0 && t == Run(c, h)
    ensures var stamp := [Stamp(call.at, Allow(c, t.buckets, call.key, call.at).0)];
            OnBucket(c, h + [call], After(c, t, call).said, key)
            == if call.key != key then OnBucket(c, h, t.said, key)
               else if key in t.buckets.entries then OnBucket(c, h, t.said, key) + stamp else stamp
  {
    var yes := Allow(c, t.buckets, call.key, call.at).0;
    HeldKeys(c, h);
    Lru.HistoryStep(c.maxKeys, Keys(h), call.key, key);
    BornIsPast(c, h, key);
    StampsStep(h, t.said, call, yes, key, Lru.Born(c.maxKeys, Keys(h), key));
    StampsStep(h, t.said, call, yes, key, |h|);
    assert OnBucket(c, h, t.said, key) + [] == OnBucket(c, h, t.said, key);
  }

  lemma BornIsPast(c: Config, h: seq<Call>, key: string)
    ensures Lru.Born(c.maxKeys, Keys(h), key) <= |h|
  {
    if h != [] { Lru.BornBound(c.maxKeys, Keys(h), key); }
  }

  /** A bucket was last touched by some earlier call. */
  lemma BucketIsPast(c: Config, h: seq<Call>, next: Call, key: string, b: Bucket)
    requires Monotone(h + [next]) && Windowed(c.rate, c.burst, OnBucket(c, h, Run(c, h).said, key), b)
    ensures b.updatedAt <= next.at
  {
    var log := OnBucket(c, h, Run(c, h).said, key);
    var i := StampOf(h, Run(c, h).said, key, Lru.Born(c.maxKeys, Keys(h), key), |log| - 1);
    assert (h + [next])[i] == h[i] && (h + [next])[|h|] == next;
  }

  lemma {:induction false} StampOf(h: seq<Call>, said: seq<bool>, key: string, from: nat, n: nat) returns (i: nat)
    requires |said| == |h| && n < |Stamps(h, said, key, from)|
    ensures from <= i < |h| && h[i].key == key && Stamps(h, said, key, from)[n] == Stamp(h[i].at, said[i])
    decreases |h|
  {
    var before, saidBefore := h[..|h| - 1], said[..|h| - 1];
    if n < |Stamps(before, saidBefore, key, from)| {
      i := StampOf(before, saidBefore, key, from, n);
    } else {
      i := |h| - 1;
    }
  }

  // -- the laws

  /** Every window that opens with a call of `log` has room for one more at `now`: what was admitted from that
      call on, and this one, are within burst + rate * elapsed. */
  ghost predicate WindowsPermit(c: Config, log: seq<Stamp>, now: real) {
    forall i :: 0 <= i < |log| ==> Left(c.rate, c.burst, log, i, now) >= 1.0
  }

  /** The sliding window, exactly, over every run with a monotone clock: a call is admitted if and only if one
      call fits the burst and every window on the same bucket has room for it. */
  lemma AllowedIffWindowsPermit(c: Config, h: seq<Call>, call: Call)
    requires c.maxKeys > 0 && Monotone(h + [call])
    ensures var t := Run(c, h);
            Allow(c, t.buckets, call.key, call.at).0 <==>
              && c.burst >= 1.0
              && (call.key in t.buckets.entries ==> WindowsPermit(c, OnBucket(c, h, t.said, call.key), call.at))
  {
    var t := Run(c, h);
    Earlier(h, call);
    if call.key in t.buckets.entries {
      var b, log := t.buckets.entries[call.key], OnBucket(c, h, t.said, call.key);
      BucketSound(c, h, call.key);
      BucketIsPast(c, h, call, call.key, b);
      AnsweredByWindows(c, t.buckets, log, b, call);
    }
  }

  lemma AnsweredByWindows(c: Config, d: Buckets, log: seq<Stamp>, b: Bucket, call: Call)
    requires call.key in d.entries && b == d.entries[call.key] && Sound(c, log, b) && b.updatedAt <= call.at
    ensures Allow(c, d, call.key, call.at).0 <==> c.burst >= 1.0 && WindowsPermit(c, log, call.at)
  {
    AdmittedIffWindowsPermit(c.rate, c.burst, log, b, call.at);
  }

  lemma Earlier(h: seq<Call>, call: Call)
    requires Monotone(h + [call])
    ensures Monotone(h)
  {
    assert forall i :: 0 <= i < |h| ==> (h + [call])[i] == h[i];
  }

  /** Any window admits at most burst + rate * its length, on one bucket. */
  lemma NoWindowExceeds(c: Config, h: seq<Call>, key: string, i: nat)
    requires c.maxKeys > 0 && c.burst >= 0.0 && c.rate >= 0.0 && Monotone(h) && key in Run(c, h).buckets.entries
    requires i < |OnBucket(c, h, Run(c, h).said, key)|
    ensures WithinWindow(c, OnBucket(c, h, Run(c, h).said, key), i)
  {
    BucketSound(c, h, key);
    SoundBound(c, OnBucket(c, h, Run(c, h).said, key), Run(c, h).buckets.entries[key], i);
  }

  /** What the window from call `i` to the last call admitted is within burst + rate * its length. */
  ghost predicate WithinWindow(c: Config, log: seq<Stamp>, i: nat)
    requires i < |log|
  {
    Admitted(log, i) as real <= c.burst + c.rate * (log[|log| - 1].at - log[i].at)
  }

  lemma SoundBound(c: Config, log: seq<Stamp>, b: Bucket, i: nat)
    requires c.burst >= 0.0 && c.rate >= 0.0 && Sound(c, log, b) && i < |log|
    ensures WithinWindow(c, log, i)
  {
    WindowBound(c.rate, c.burst, log, b, i);
  }

  /** When a key's bucket survives, exactly: it is held if and only if fewer than `maxKeys` distinct other keys
      have called since its last call, and two of its calls share a bucket if and only if that is so in every
      gap between them. */
  lemma BucketKeptIff(c: Config, h: seq<Call>, key: string, i: nat)
    requires c.maxKeys > 0 && i < |h| && h[i].key == key
    ensures key in Run(c, h).buckets.entries <==> |Elems(Lru.Since(Keys(h), key))| < c.maxKeys
    ensures Lru.Born(c.maxKeys, Keys(h)[..i + 1], key) == Lru.Born(c.maxKeys, Keys(h), key)
            <==> Lru.ShortGaps(c.maxKeys, Keys(h), i, key)
  {
    HeldKeys(c, h);
    assert Keys(h)[i] == key;
    Lru.Retained(c.maxKeys, Keys(h), key);
    Lru.SameEntry(c.maxKeys, Keys(h), i, key);
  }

  // -- the object

  class Limiter {
    const config: Config
    var buckets: Buckets

    constructor (config: Config)
      ensures this.config == config && buckets == Run(config, []).buckets
    {
      this.config := config;
      buckets := OrderedDict([], map[]);
    }

    method AllowCall(key: string, now: real) returns (allowed: bool)
      requires buckets.Valid() && config.maxKeys > 0
      modifies this
      ensures (allowed, buckets) == Allow(config, old(buckets), key, now)
      ensures buckets.Valid()
    {
      ghost var before := buckets;
      AllowTouches(config, buckets, key, now);
      OrderMatches(buckets);
      var level := config.burst;
      if key !in buckets.entries {
        if |buckets.entries| >= config.maxKeys {
          buckets := buckets.PopOldest();
        }
      } else {
        level := Level(config.rate, config.burst, buckets.entries[key], now);
        buckets := buckets.MoveToEnd(key);
      }
      assert level == Found(config, before, key, now) && buckets == Placed(config, before, key);
      allowed := level >= 1.0;
      buckets := buckets.Put(key, Spent(level, now));
    }
  }
}
