/** Token buckets per (character, class), in exact arithmetic: times are seconds and
    tokens are reals. */
module RateLimit {
  import opened Common

  datatype Class = Msg | Social | Money | Expensive | Read

  /** Sustained tokens per second. */
  function Rate(c: Class): real {
    match c case Msg => 1.0 case Social => 5.0 case Money => 1.0 case Expensive => 0.2 case Read => 10.0
  }
  function Burst(c: Class): nat {
    match c case Msg => 5 case Social => 20 case Money => 2 case Expensive => 3 case Read => 30
  }

  const IDLE_TTL: real := 600.0

  type Key = (int, Class)

  datatype Bucket = Bucket(tokens: real, last: real)
  datatype Decision = Admit | RetryAfter(ms: int)
  type Table = map<Key, Bucket>

  function Min(a: real, b: real): real { if a <= b then a else b }

  /** `duration_since` saturates at zero. */
  function Elapsed(now: real, last: real): real { if now >= last then now - last else 0.0 }

  /** What the bucket of a key holds at a moment; no bucket means a full one. */
  function Level(t: Table, key: Key, now: real): real {
    if key !in t then Burst(key.1) as real
    else Min(Burst(key.1) as real, t[key].tokens + Elapsed(now, t[key].last) * Rate(key.1))
  }

  function Decide(level: real, c: Class): Decision {
    if level >= 1.0 then Admit else RetryAfter(((1.0 - level) / Rate(c) * 1000.0).Floor)
  }

  function Checked(t: Table, key: Key, now: real): Table {
    var level := Level(t, key, now);
    t[key := Bucket(if level >= 1.0 then level - 1.0 else level, now)]
  }

  function Swept(t: Table, now: real): Table {
    map key | key in t && Elapsed(now, t[key].last) < IDLE_TTL :: t[key]
  }

  // ── runs ─────────────────────────────────────────────────────────────────

  datatype Event = Check(key: Key, now: real) | Sweep(now: real)

  function Step(t: Table, e: Event): Table {
    match e case Check(key, now) => Checked(t, key, now) case Sweep(now) => Swept(t, now)
  }
  function Run(t: Table, events: seq<Event>): Table
    decreases events
  {
    if events == [] then t else Run(Step(t, events[0]), events[1..])
  }
  /** The answers to the checks, in order. */
  function Answers(t: Table, events: seq<Event>): seq<Decision>
    decreases events
  {
    if events == [] then []
    else
      var rest := Answers(Step(t, events[0]), events[1..]);
      match events[0]
      case Check(key, now) => [Decide(Level(t, key, now), key.1)] + rest
      case Sweep(_) => rest
  }
  /** How many checks of one key were admitted. */
  function Admitted(t: Table, events: seq<Event>, key: Key): nat
    decreases events
  {
    if events == [] then 0
    else
      (if events[0].Check? && events[0].key == key && Level(t, key, events[0].now) >= 1.0 then 1 else 0)
        + Admitted(Step(t, events[0]), events[1..], key)
  }

  function WithoutSweeps(events: seq<Event>): seq<Event> {
    if events == [] then []
    else (if events[0].Sweep? then [] else [events[0]]) + WithoutSweeps(events[1..])
  }

  /** The clock never runs backwards, from `start` on. */
  ghost predicate InOrder(events: seq<Event>, start: real) {
    events == [] || (start <= events[0].now && InOrder(events[1..], events[0].now))
  }
  ghost predicate Before(events: seq<Event>, end: real) {
    forall i {:trigger events[i]} :: 0 <= i < |events| ==> events[i].now <= end
  }

  ghost predicate BucketHolds(t: Table, key: Key, now: real) {
    key in t ==> 0.0 <= t[key].tokens <= Burst(key.1) as real && t[key].last <= now
  }
  ghost predicate Holds(t: Table, now: real) {
    forall key {:trigger BucketHolds(t, key, now)} :: BucketHolds(t, key, now)
  }

  lemma StepHolds(t: Table, e: Event, start: real)
    requires Holds(t, start) && start <= e.now
    ensures Holds(Step(t, e), e.now)
  {
    forall key ensures BucketHolds(Step(t, e), key, e.now) {
      assert BucketHolds(t, key, start);
      if key in t { LevelInRange(t, key, e.now); }
    }
  }

  lemma LevelInRange(t: Table, key: Key, now: real)
    requires key in t ==> 0.0 <= t[key].tokens
    ensures 0.0 <= Level(t, key, now) <= Burst(key.1) as real
  {
    if key in t {
      match key.1 { case Msg => case Social => case Money => case Expensive => case Read => }
    }
  }

  lemma {:induction false} RunHolds(t: Table, events: seq<Event>, start: real)
    requires Holds(t, start) && InOrder(events, start)
    ensures events == [] || Holds(Run(t, events), events[|events| - 1].now)
    decreases events
  {
    if events != [] {
      StepHolds(t, events[0], start);
      RunHolds(Step(t, events[0]), events[1..], events[0].now);
    }
  }

  // ── the window bound ─────────────────────────────────────────────────────

  /** Later levels grow by at most the rate. */
  lemma LevelGrowth(t: Table, key: Key, start: real, now: real)
    requires start <= now && BucketHolds(t, key, start)
    ensures Level(t, key, now) <= Level(t, key, start) + (now - start) * Rate(key.1)
  {
    match key.1 { case Msg => case Social => case Money => case Expensive => case Read => }
  }

  lemma LevelAfterStep(t: Table, e: Event, key: Key, start: real)
    requires Holds(t, start) && start <= e.now
    ensures var level := Level(t, key, e.now);
            Level(Step(t, e), key, e.now) ==
              if e.Check? && e.key == key && level >= 1.0 then level - 1.0 else level
  {
    assert BucketHolds(t, key, start);
    LevelInRange(t, key, e.now);
    match key.1 { case Msg => case Social => case Money => case Expensive => case Read => }
  }

  lemma {:induction false} SpentWithinLevel(t: Table, events: seq<Event>, key: Key, start: real, end: real)
    requires Holds(t, start) && InOrder(events, start) && Before(events, end) && start <= end
    ensures Admitted(t, events, key) as real <= Level(t, key, start) + (end - start) * Rate(key.1)
    decreases events
  {
    assert BucketHolds(t, key, start);
    LevelInRange(t, key, start);
    if events == [] {
      match key.1 { case Msg => case Social => case Money => case Expensive => case Read => }
    } else {
      var e := events[0];
      StepHolds(t, e, start);
      LevelGrowth(t, key, start, e.now);
      LevelAfterStep(t, e, key, start);
      SpentWithinLevel(Step(t, e), events[1..], key, e.now, end);
      assert (end - start) * Rate(key.1) == (end - e.now) * Rate(key.1) + (e.now - start) * Rate(key.1);
    }
  }

  /** In any window of a run, sweeps included, at most burst + rate * length commands
      of one key get through. */
  lemma WindowBound(before: seq<Event>, window: seq<Event>, key: Key, start: real, end: real)
    requires InOrder(before, 0.0) && Before(before, start)
    requires InOrder(window, start) && Before(window, end) && 0.0 <= start <= end
    ensures Admitted(Run(map[], before), window, key) as real <= Burst(key.1) as real + (end - start) * Rate(key.1)
  {
    var t := Run(map[], before);
    RunHolds(map[], before, 0.0);
    forall k ensures BucketHolds(t, k, start) {
      assert before != [] ==> BucketHolds(t, k, before[|before| - 1].now);
    }
    assert BucketHolds(t, key, start);
    LevelInRange(t, key, start);
    SpentWithinLevel(t, window, key, start, end);
  }

  /** The bound is met: `n` checks at one instant on a full bucket admit the burst and
      refuse the rest. */
  lemma {:induction false} BurstIsExact(t: Table, key: Key, now: real, n: nat, level: nat)
    requires Level(t, key, now) == level as real && level <= Burst(key.1)
    ensures Admitted(t, seq(n, _ => Check(key, now)), key) == if n <= level then n else level
    decreases n
  {
    var events := seq(n, _ => Check(key, now));
    if n > 0 {
      assert events[1..] == seq(n - 1, _ => Check(key, now));
      var t' := Step(t, events[0]);
      assert Level(t', key, now) == if level >= 1 then (level - 1) as real else level as real;
      BurstIsExact(t', key, now, n - 1, if level >= 1 then level - 1 else 0);
    }
  }

  // ── sweeping changes nothing ─────────────────────────────────────────────

  ghost predicate SameLevel(t: Table, u: Table, key: Key, now: real) {
    Level(t, key, now) == Level(u, key, now)
  }
  /** The two tables cannot be told apart from `start` on. */
  ghost predicate Alike(t: Table, u: Table, start: real) {
    forall key, now {:trigger SameLevel(t, u, key, now)} :: now >= start ==> SameLevel(t, u, key, now)
  }

  /** Ten minutes without a command refill every class. */
  lemma IdleMeansFull(t: Table, key: Key, now: real)
    requires key in t && 0.0 <= t[key].tokens && now - t[key].last >= IDLE_TTL
    ensures Level(t, key, now) == Burst(key.1) as real
  {
    match key.1 { case Msg => case Social => case Money => case Expensive => case Read => }
  }

  /** A sweep takes exactly the buckets that have been idle for ten minutes, all of them
      full again. */
  lemma SweepTakesTheIdle(t: Table, key: Key, now: real)
    requires key in t && 0.0 <= t[key].tokens
    ensures key in Swept(t, now) <==> now - t[key].last < 600.0
    ensures key in Swept(t, now) ==> Swept(t, now)[key] == t[key]
    ensures key !in Swept(t, now) ==> Level(t, key, now) == Burst(key.1) as real
  {
    if key !in Swept(t, now) {
      IdleMeansFull(t, key, now);
    }
  }

  lemma SweepIsInvisible(t: Table, u: Table, start: real, at: real)
    requires Holds(t, start) && Alike(t, u, start) && start <= at
    ensures Alike(Swept(t, at), u, at)
  {
    forall key, now | now >= at ensures SameLevel(Swept(t, at), u, key, now) {
      assert SameLevel(t, u, key, now) && BucketHolds(t, key, start);
      if key in t && key !in Swept(t, at) {
        IdleMeansFull(t, key, now);
      }
    }
  }

  lemma CheckKeepsAlike(t: Table, u: Table, start: real, key: Key, now: real)
    requires Alike(t, u, start) && start <= now
    ensures Alike(Checked(t, key, now), Checked(u, key, now), now)
    ensures Level(t, key, now) == Level(u, key, now)
  {
    assert SameLevel(t, u, key, now);
    forall k, later | later >= now ensures SameLevel(Checked(t, key, now), Checked(u, key, now), k, later) {
      assert SameLevel(t, u, k, later);
    }
  }

  lemma {:induction false} SameAnswers(t: Table, u: Table, events: seq<Event>, start: real)
    requires Holds(t, start) && Alike(t, u, start) && InOrder(events, start)
    ensures Answers(t, events) == Answers(u, WithoutSweeps(events))
    decreases events
  {
    if events != [] {
      var e := events[0];
      StepHolds(t, e, start);
      match e {
        case Check(key, now) =>
          CheckKeepsAlike(t, u, start, key, now);
          SameAnswers(Checked(t, key, now), Checked(u, key, now), events[1..], now);
          assert WithoutSweeps(events)[1..] == WithoutSweeps(events[1..]);
        case Sweep(now) =>
          SweepIsInvisible(t, u, start, now);
          SameAnswers(Swept(t, now), u, events[1..], now);
          assert WithoutSweeps(events) == WithoutSweeps(events[1..]);
      }
    }
  }

  /** Whenever the janitor sweeps, every command gets the answer it would have got
      without it. */
  lemma SweepsChangeNoDecision(events: seq<Event>)
    requires InOrder(events, 0.0)
    ensures Answers(map[], events) == Answers(map[], WithoutSweeps(events))
  {
    SameAnswers(map[], map[], events, 0.0);
  }

  // ── retry_after ──────────────────────────────────────────────────────────

  /** After a refusal the next check of the key is admitted from `ms + 1` milliseconds
      on and refused before `ms`. */
  lemma RetryAfterIsExact(t: Table, key: Key, now: real, later: real)
    requires Decide(Level(t, key, now), key.1).RetryAfter? && now <= later
    ensures var ms := Decide(Level(t, key, now), key.1).ms as real;
            var next := Decide(Level(Checked(t, key, now), key, later), key.1);
            && (1000.0 * (later - now) >= ms + 1.0 ==> next == Admit)
            && (1000.0 * (later - now) < ms ==> next.RetryAfter?)
  {
    match key.1 { case Msg => case Social => case Money => case Expensive => case Read => }
  }

  // ── the table in place ───────────────────────────────────────────────────

  class RateLimitTable {
    var buckets: Table

    constructor ()
      ensures buckets == map[]
    {
      buckets := map[];
    }

    method Check(character: int, c: Class, now: real) returns (d: Decision)
      modifies this
      ensures buckets == Checked(old(buckets), (character, c), now)
      ensures d == Decide(Level(old(buckets), (character, c), now), c)
    {
      var key := (character, c);
      var bucket := if key in buckets then buckets[key] else Bucket(Burst(c) as real, now);
      var refill := Elapsed(now, bucket.last) * Rate(c);
      var tokens := Min(Burst(c) as real, bucket.tokens + refill);
      bucket := Bucket(tokens, now);
      if bucket.tokens >= 1.0 {
        bucket := bucket.(tokens := bucket.tokens - 1.0);
        d := Admit;
      } else {
        d := RetryAfter(((1.0 - bucket.tokens) / Rate(c) * 1000.0).Floor);
      }
      buckets := buckets[key := bucket];
    }

    method SweepIdle(now: real) returns (evicted: nat)
      modifies this
      ensures buckets == Swept(old(buckets), now)
      ensures evicted == |old(buckets)| - |buckets|
    {
      ghost var before := buckets;
      var todo := buckets.Keys;
      evicted := 0;
      while todo != {}
        invariant todo <= buckets.Keys <= before.Keys
        invariant forall k :: k in before ==> (k in buckets <==> k in todo || Elapsed(now, before[k].last) < IDLE_TTL)
        invariant forall k :: k in buckets ==> buckets[k] == before[k]
        invariant evicted + |buckets| == |before|
        decreases |todo|
      {
        var k :| k in todo;
        if Elapsed(now, buckets[k].last) >= IDLE_TTL {
          assert |buckets - {k}| == |buckets| - 1 by { assert (buckets - {k}).Keys == buckets.Keys - {k}; }
          buckets := buckets - {k};
          evicted := evicted + 1;
        }
        todo := todo - {k};
      }
    }
  }
}
