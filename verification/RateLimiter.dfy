/**
 The relay's token-bucket limiter, one bucket per client address.

 Time is a real number of seconds handed in by the caller; the source reads a monotonic clock.
 `Check` and `Cleanup` give the meaning of one call on limiter values, the class `RateLimiter`
 performs the calls in place, and the lemmas speak about whole runs.
 */
module RateLimiting {

  type Ip = nat

  const CLEANUP_INTERVAL := 300.0
  const STALE_AFTER := 600.0

  datatype Bucket = Bucket(tokens: real, lastRefill: real)

  datatype Rate = Rate(capacity: real, refill: real)

  datatype Limiter = Limiter(buckets: map<Ip, Bucket>, lastCleanup: real)

  datatype Event = Handshake(ip: Ip, now: real) | Prune(now: real)

  function Min(a: real, b: real): real { if a <= b then a else b }

  function Max(a: real, b: real): real { if a >= b then a else b }

  /** A duration never comes out negative, whatever the order of the two instants. */
  function Elapsed(now: real, since: real): real { Max(now - since, 0.0) }

  function RateOf(capacity: real, window: real): Rate {
    Rate(capacity, capacity / Max(window, 1.0))
  }

  function Fresh(now: real): Limiter { Limiter(map[], now) }

  /** The tokens that refill in a span of time. */
  function Credit(r: Rate, span: real): real { span * r.refill }

  /** What a bucket holds once the time since its last use has been credited. */
  function Refilled(r: Rate, b: Bucket, now: real): real {
    Min(b.tokens + Credit(r, Elapsed(now, b.lastRefill)), r.capacity)
  }

  function Check(r: Rate, l: Limiter, ip: Ip, now: real): (result: (Limiter, bool)) {
    var bucket := if ip in l.buckets then l.buckets[ip] else Bucket(r.capacity, now);
    var tokens := Refilled(r, bucket, now);
    var admitted := tokens >= 1.0;
    var left := if admitted then tokens - 1.0 else tokens;
    (l.(buckets := l.buckets[ip := Bucket(left, now)]), admitted)
  }

  function Cleanup(l: Limiter, now: real): Limiter {
    if Elapsed(now, l.lastCleanup) < CLEANUP_INTERVAL then l
    else Limiter(map ip | ip in l.buckets && Elapsed(now, l.buckets[ip].lastRefill) < STALE_AFTER :: l.buckets[ip], now)
  }

  class RateLimiter {
    var buckets: map<Ip, Bucket>
    var lastCleanup: real
    const capacity: real
    const refillPerSecond: real

    function Value(): Limiter reads this { Limiter(buckets, lastCleanup) }

    function Settings(): Rate { Rate(capacity, refillPerSecond) }

    constructor (capacity: real, window: real, now: real)
      ensures Settings() == RateOf(capacity, window)
      ensures Value() == Fresh(now)
    {
      var windowSecs := Max(window, 1.0);
      this.buckets := map[];
      this.capacity := capacity;
      this.refillPerSecond := capacity / windowSecs;
      this.lastCleanup := now;
    }

    method CheckAndConsume(ip: Ip, now: real) returns (admitted: bool)
      modifies this`buckets
      ensures (Value(), admitted) == Check(Settings(), old(Value()), ip, now)
    {
      if ip !in buckets {
        buckets := buckets[ip := Bucket(capacity, now)];
      }
      var bucket := buckets[ip];
      var elapsed := Elapsed(now, bucket.lastRefill);
      bucket := Bucket(Min(bucket.tokens + elapsed * refillPerSecond, capacity), now);
      if bucket.tokens >= 1.0 {
        bucket := bucket.(tokens := bucket.tokens - 1.0);
        admitted := true;
      } else {
        admitted := false;
      }
      buckets := buckets[ip := bucket];
      assert buckets == old(buckets)[ip := bucket];
    }

    method CleanupStale(now: real)
      modifies this
      ensures Value() == Cleanup(old(Value()), now)
    {
      if Elapsed(now, lastCleanup) < CLEANUP_INTERVAL {
        return;
      }
      buckets := map ip | ip in buckets && Elapsed(now, buckets[ip].lastRefill) < STALE_AFTER :: buckets[ip];
      lastCleanup := now;
    }
  }

  // ---------------------------------------------------------------------------------------------
  // Runs

  function Step(r: Rate, l: Limiter, e: Event, pruning: bool): (Limiter, bool) {
    match e
    case Handshake(ip, now) => Check(r, l, ip, now)
    case Prune(now) => (if pruning then Cleanup(l, now) else l, false)
  }

  function After(r: Rate, l: Limiter, events: seq<Event>, pruning: bool): Limiter
    decreases |events|
  {
    if events == [] then l else After(r, Step(r, l, events[0], pruning).0, events[1..], pruning)
  }

  /** What every event of the run was answered; pruning answers nothing, shown as `false`. */
  function Decisions(r: Rate, l: Limiter, events: seq<Event>, pruning: bool): seq<bool>
    decreases |events|
  {
    if events == [] then []
    else
      var (next, admitted) := Step(r, l, events[0], pruning);
      [admitted] + Decisions(r, next, events[1..], pruning)
  }

  /** How many handshakes of `ip` the run lets in. */
  function Admissions(r: Rate, l: Limiter, events: seq<Event>, ip: Ip): nat
    decreases |events|
  {
    if events == [] then 0
    else
      var (next, admitted) := Step(r, l, events[0], true);
      (if admitted && events[0].Handshake? && events[0].ip == ip then 1 else 0)
      + Admissions(r, next, events[1..], ip)
  }

  /** Events happen one after the other, none before `start` and none after `end`. */
  ghost predicate Ordered(start: real, events: seq<Event>, end: real)
    decreases |events|
  {
    if events == [] then start <= end
    else start <= events[0].now && Ordered(events[0].now, events[1..], end)
  }

  /** Every bucket holds between zero and `capacity` tokens and was last touched in the past. */
  ghost predicate Sound(r: Rate, l: Limiter, now: real) {
    && l.lastCleanup <= now
    && forall ip <- l.buckets ::
      0.0 <= l.buckets[ip].tokens <= r.capacity && l.buckets[ip].lastRefill <= now
  }

  /** The tokens a client could spend at `now`; a client without a bucket has them all. */
  function Level(r: Rate, l: Limiter, ip: Ip, now: real): real {
    if ip in l.buckets then Refilled(r, l.buckets[ip], now) else r.capacity
  }

  /** The bucket of a client that stays away this long is full again before it is thrown away. */
  ghost predicate RefillsBeforeStale(r: Rate) {
    0.0 <= r.refill && 0.0 <= r.capacity <= Credit(r, STALE_AFTER)
  }

  lemma QuotientSign(a: real, b: real)
    requires 0.0 < b
    ensures 0.0 <= a ==> 0.0 <= a / b
    ensures 0.0 < a ==> 0.0 < a / b
  {}

  lemma CreditMonotone(r: Rate, a: real, b: real)
    requires a <= b && 0.0 <= r.refill
    ensures Credit(r, a) <= Credit(r, b)
  {}

  lemma CreditSum(r: Rate, a: real, b: real)
    ensures Credit(r, a) + Credit(r, b) == Credit(r, a + b)
    ensures Credit(r, 0.0) == 0.0
  {}

  /** A whole window refills a whole bucket. */
  lemma WindowRefills(capacity: real, window: real)
    ensures Credit(RateOf(capacity, window), Max(window, 1.0)) == capacity
    ensures 0.0 <= capacity ==> 0.0 <= RateOf(capacity, window).refill
    ensures 0.0 < capacity ==> 0.0 < RateOf(capacity, window).refill
  {
    QuotientSign(capacity, Max(window, 1.0));
  }

  lemma ShortWindowRefills(capacity: real, window: real)
    requires 0.0 <= capacity && Max(window, 1.0) <= STALE_AFTER
    ensures RefillsBeforeStale(RateOf(capacity, window))
  {
    hide Credit;
    WindowRefills(capacity, window);
    CreditMonotone(RateOf(capacity, window), Max(window, 1.0), STALE_AFTER);
  }

  /** Waiting adds the refill of that time, up to the capacity. */
  lemma LevelLater(r: Rate, l: Limiter, ip: Ip, now: real, wait: real)
    requires Sound(r, l, now) && 0.0 <= wait && 0.0 <= r.refill
    ensures Level(r, l, ip, now + wait) == Min(Level(r, l, ip, now) + Credit(r, wait), r.capacity)
  {
    hide Credit;
    CreditMonotone(r, 0.0, wait);
    CreditSum(r, 0.0, 0.0);
    if ip in l.buckets {
      CreditSum(r, now - l.buckets[ip].lastRefill, wait);
    }
  }

  lemma LevelInRange(r: Rate, l: Limiter, ip: Ip, now: real)
    requires Sound(r, l, now) && 0.0 <= r.refill && 0.0 <= r.capacity
    ensures 0.0 <= Level(r, l, ip, now) <= r.capacity
  {
    hide Credit;
    CreditSum(r, 0.0, 0.0);
    if ip in l.buckets {
      CreditMonotone(r, 0.0, now - l.buckets[ip].lastRefill);
    }
  }

  /**
   A cleanup less than five minutes after the last one does nothing; any other drops exactly the buckets that nobody
   touched for ten minutes, leaves the rest as they are and is remembered as the last one.
   */
  lemma CleanupDropsIff(r: Rate, l: Limiter, ip: Ip, now: real)
    requires Sound(r, l, now)
    ensures var q := Cleanup(l, now);
            var due := now - l.lastCleanup >= 300.0;
            && (ip in q.buckets <==> ip in l.buckets && !(due && now - l.buckets[ip].lastRefill >= 600.0))
            && (ip in q.buckets ==> q.buckets[ip] == l.buckets[ip])
            && q.lastCleanup == (if due then now else l.lastCleanup)
  {}

  /** A check costs its own client one token if it admits, and nobody else anything. */
  lemma CheckOnLevels(r: Rate, l: Limiter, ip: Ip, now: real)
    requires Sound(r, l, now) && 0.0 <= r.refill && 0.0 <= r.capacity
    ensures var (next, admitted) := Check(r, l, ip, now);
            && Sound(r, next, now)
            && (admitted <==> Level(r, l, ip, now) >= 1.0)
            && next == l.(buckets := l.buckets[ip := Bucket(Level(r, next, ip, now), now)])
            && Level(r, next, ip, now) == Level(r, l, ip, now) - (if admitted then 1.0 else 0.0)
            && forall other | other != ip :: Level(r, next, other, now) == Level(r, l, other, now)
  {
    hide Credit;
    LevelInRange(r, l, ip, now);
    CreditSum(r, 0.0, 0.0);
    var (next, admitted) := Check(r, l, ip, now);
    var level := Level(r, l, ip, now);
    assert next.buckets == l.buckets[ip := Bucket(if admitted then level - 1.0 else level, now)];
  }

  lemma StaleIsFull(r: Rate, b: Bucket, now: real)
    requires RefillsBeforeStale(r)
    requires 0.0 <= b.tokens && STALE_AFTER <= now - b.lastRefill
    ensures Refilled(r, b, now) == r.capacity
  {
    hide Credit;
    CreditMonotone(r, STALE_AFTER, now - b.lastRefill);
  }

  lemma CleanupKeepsLevels(r: Rate, l: Limiter, now: real)
    requires Sound(r, l, now) && RefillsBeforeStale(r)
    ensures Sound(r, Cleanup(l, now), now)
    ensures forall ip :: Level(r, Cleanup(l, now), ip, now) == Level(r, l, ip, now)
  {
    hide Credit;
    forall ip ensures Level(r, Cleanup(l, now), ip, now) == Level(r, l, ip, now) {
      if ip in l.buckets && ip !in Cleanup(l, now).buckets {
        StaleIsFull(r, l.buckets[ip], now);
      }
    }
  }

  /** Limiters whose clients have equal levels answer alike, whether or not they prune. */
  lemma {:induction false} SameLevelsSameDecisions(r: Rate, a: Limiter, b: Limiter, now: real, events: seq<Event>,
      end: real)
    requires RefillsBeforeStale(r)
    requires Sound(r, a, now) && Sound(r, b, now) && Ordered(now, events, end)
    requires forall ip :: Level(r, a, ip, now) == Level(r, b, ip, now)
    ensures Decisions(r, a, events, true) == Decisions(r, b, events, false)
    decreases |events|
  {
    hide Credit;
    if events != [] {
      var e := events[0];
      forall ip ensures Level(r, a, ip, e.now) == Level(r, b, ip, e.now) {
        LevelLater(r, a, ip, now, e.now - now);
        LevelLater(r, b, ip, now, e.now - now);
      }
      match e {
        case Handshake(ip, _) =>
          CheckOnLevels(r, a, ip, e.now);
          CheckOnLevels(r, b, ip, e.now);
        case Prune(_) =>
          CleanupKeepsLevels(r, a, e.now);
      }
      SameLevelsSameDecisions(r, Step(r, a, e, true).0, Step(r, b, e, false).0, e.now, events[1..], end);
    }
  }

  /** Below one token of capacity nobody is ever admitted. */
  lemma {:induction false} TinyCapacityAdmitsNobody(r: Rate, l: Limiter, events: seq<Event>, pruning: bool)
    requires r.capacity < 1.0
    ensures Decisions(r, l, events, pruning) == seq(|events|, _ => false)
    decreases |events|
  {
    if events != [] {
      TinyCapacityAdmitsNobody(r, Step(r, l, events[0], pruning).0, events[1..], pruning);
    }
  }

  lemma {:induction false} RunStaysSound(r: Rate, l: Limiter, now: real, events: seq<Event>, end: real, pruning: bool)
    requires 0.0 <= r.refill && 0.0 <= r.capacity
    requires Sound(r, l, now) && Ordered(now, events, end)
    ensures Sound(r, After(r, l, events, pruning), end)
    decreases |events|
  {
    if events != [] {
      var e := events[0];
      if e.Handshake? {
        CheckOnLevels(r, l, e.ip, e.now);
      }
      RunStaysSound(r, Step(r, l, e, pruning).0, e.now, events[1..], end, pruning);
    }
  }

  /** One event takes from a client's level no more than what refills meanwhile. */
  lemma StepIsPaid(r: Rate, l: Limiter, now: real, e: Event, ip: Ip)
    requires RefillsBeforeStale(r) && Sound(r, l, now) && now <= e.now
    ensures var (next, admitted) := Step(r, l, e, true);
            && Sound(r, next, e.now)
            && (if admitted && e.Handshake? && e.ip == ip then 1.0 else 0.0) + Level(r, next, ip, e.now)
               <= Level(r, l, ip, now) + Credit(r, e.now - now)
  {
    hide Credit;
    LevelLater(r, l, ip, now, e.now - now);
    match e {
      case Handshake(other, _) => CheckOnLevels(r, l, other, e.now);
      case Prune(_) => CleanupKeepsLevels(r, l, e.now);
    }
  }

  /** The potential argument: admissions are paid for by the level at the start and the refill since. */
  lemma {:induction false} AdmissionsArePaid(r: Rate, l: Limiter, now: real, events: seq<Event>, end: real, ip: Ip)
    requires RefillsBeforeStale(r)
    requires Sound(r, l, now) && Ordered(now, events, end)
    ensures Admissions(r, l, events, ip) as real <= Level(r, l, ip, now) + Credit(r, end - now)
    decreases |events|
  {
    hide Credit, Step;
    LevelInRange(r, l, ip, now);
    if events == [] {
      CreditMonotone(r, 0.0, end - now);
      CreditSum(r, 0.0, 0.0);
    } else {
      var e := events[0];
      StepIsPaid(r, l, now, e, ip);
      AdmissionsArePaid(r, Step(r, l, e, true).0, e.now, events[1..], end, ip);
      CreditSum(r, e.now - now, end - e.now);
    }
  }

  // ---------------------------------------------------------------------------------------------
  // Main results

  lemma StretchBound(r: Rate, start: real, before: seq<Event>, from: real, stretch: seq<Event>, to: real, ip: Ip)
    requires RefillsBeforeStale(r)
    requires Ordered(start, before, from) && Ordered(from, stretch, to)
    ensures var l := After(r, Fresh(start), before, true);
            && Sound(r, l, from)
            && Admissions(r, l, stretch, ip) as real <= r.capacity + Credit(r, to - from)
  {
    hide Credit;
    RunStaysSound(r, Fresh(start), start, before, from, true);
    var l := After(r, Fresh(start), before, true);
    AdmissionsArePaid(r, l, from, stretch, to, ip);
    LevelInRange(r, l, ip, from);
  }

  /** No run of a limiter made with this capacity and window is answered differently because of pruning. */
  ghost predicate PruningNeverShows(capacity: real, window: real) {
    var r := RateOf(capacity, window);
    forall start: real, events: seq<Event>, end: real | Ordered(start, events, end) ::
      Decisions(r, Fresh(start), events, true) == Decisions(r, Fresh(start), events, false)
  }

  /** Throwing stale buckets away is invisible exactly for windows of at most ten minutes, or when nobody gets in. */
  lemma PruningNeverShowsIff(capacity: real, window: real)
    ensures PruningNeverShows(capacity, window) <==> window <= STALE_AFTER || capacity < 1.0
  {
    hide Credit;
    var r := RateOf(capacity, window);
    if window <= STALE_AFTER || capacity < 1.0 {
      forall start: real, events: seq<Event>, end: real | Ordered(start, events, end)
        ensures Decisions(r, Fresh(start), events, true) == Decisions(r, Fresh(start), events, false)
      {
        if capacity < 1.0 {
          TinyCapacityAdmitsNobody(r, Fresh(start), events, true);
          TinyCapacityAdmitsNobody(r, Fresh(start), events, false);
        } else {
          ShortWindowRefills(capacity, window);
          SameLevelsSameDecisions(r, Fresh(start), Fresh(start), start, events, end);
        }
      }
    } else {
      LongWindowShowsPruning(capacity, window);
    }
  }

  // ---------------------------------------------------------------------------------------------
  // The failing family: capacity of at least one token and a window above ten minutes

  lemma {:induction false} DecisionsSplit(r: Rate, l: Limiter, first: seq<Event>, second: seq<Event>, pruning: bool)
    ensures Decisions(r, l, first + second, pruning)
         == Decisions(r, l, first, pruning) + Decisions(r, After(r, l, first, pruning), second, pruning)
    ensures |Decisions(r, l, first, pruning)| == |first|
    decreases |first|
  {
    if first == [] {
      assert first + second == second;
    } else {
      assert (first + second)[0] == first[0] && (first + second)[1..] == first[1..] + second;
      DecisionsSplit(r, Step(r, l, first[0], pruning).0, first[1..], second, pruning);
    }
  }

  lemma {:induction false} OrderedSplit(start: real, first: seq<Event>, middle: real, second: seq<Event>, end: real)
    requires Ordered(start, first, middle) && Ordered(middle, second, end)
    ensures Ordered(start, first + second, end)
    decreases |first|
  {
    if first == [] {
      assert first + second == second;
      if second != [] {
        assert start <= second[0].now;
      }
    } else {
      assert (first + second)[0] == first[0] && (first + second)[1..] == first[1..] + second;
      OrderedSplit(first[0].now, first[1..], middle, second, end);
    }
  }

  /** Time until a bucket refills from `tokens` to exactly one. */
  lemma WaitForOne(r: Rate, tokens: real) returns (wait: real)
    requires 0.0 < r.refill && 0.0 <= tokens < 1.0 <= r.capacity
    ensures wait >= 0.0 && tokens + Credit(r, wait) == 1.0
  {
    wait := (1.0 - tokens) / r.refill;
    QuotientSign(1.0 - tokens, r.refill);
  }

  /** One client alone can spend its bucket down to exactly nothing. */
  lemma {:induction false} Drain(r: Rate, l: Limiter, now: real) returns (events: seq<Event>, end: real)
    requires 0.0 < r.refill && 1.0 <= r.capacity && l.buckets.Keys <= {0} && Sound(r, l, now)
    ensures Ordered(now, events, end)
    ensures forall e <- events :: e.Handshake?
    ensures After(r, l, events, true) == After(r, l, events, false)
         == Limiter(map[0 := Bucket(0.0, end)], l.lastCleanup)
    ensures Admissions(r, l, events, 0) as real == Level(r, l, 0, now) + Credit(r, end - now)
    decreases Level(r, l, 0, now).Floor
  {
    hide Credit, Check;
    var level := Level(r, l, 0, now);
    LevelInRange(r, l, 0, now);
    if level < 1.0 {
      var wait := WaitForOne(r, level);
      end := now + wait;
      LevelLater(r, l, 0, now, wait);
      CheckOnLevels(r, l, 0, end);
      events := [Handshake(0, end)];
      var next := Check(r, l, 0, end).0;
      assert next.buckets == map[0 := Bucket(0.0, end)];
      assert After(r, next, [], true) == next == After(r, next, [], false);
      assert Admissions(r, next, [], 0) == 0;
    } else {
      CheckOnLevels(r, l, 0, now);
      var next := Check(r, l, 0, now).0;
      assert next.buckets.Keys <= {0};
      var rest;
      rest, end := Drain(r, next, now);
      events := [Handshake(0, now)] + rest;
      assert events[1..] == rest;
    }
  }

  lemma OneHandshake(r: Rate, l: Limiter, now: real, pruning: bool)
    requires Sound(r, l, now) && 0.0 <= r.refill && 0.0 <= r.capacity
    ensures Decisions(r, l, [Handshake(0, now)], pruning) == [Level(r, l, 0, now) >= 1.0]
  {
    hide Credit;
    CheckOnLevels(r, l, 0, now);
    var next := Check(r, l, 0, now).0;
    assert Decisions(r, next, [], pruning) == [];
  }

  /** Two limiters whose one client has different levels can be told apart by further handshakes. */
  lemma {:induction false} TellApart(r: Rate, a: Limiter, b: Limiter, now: real) returns (events: seq<Event>, end: real)
    requires 0.0 < r.refill && 1.0 <= r.capacity && Sound(r, a, now) && Sound(r, b, now)
    requires Level(r, a, 0, now) > Level(r, b, 0, now)
    ensures Ordered(now, events, end)
    ensures Decisions(r, a, events, true) != Decisions(r, b, events, false)
    decreases Level(r, a, 0, now).Floor
  {
    hide Credit;
    var high, low := Level(r, a, 0, now), Level(r, b, 0, now);
    LevelInRange(r, a, 0, now);
    LevelInRange(r, b, 0, now);
    if high >= 1.0 && low >= 1.0 {
      CheckOnLevels(r, a, 0, now);
      CheckOnLevels(r, b, 0, now);
      var rest;
      rest, end := TellApart(r, Check(r, a, 0, now).0, Check(r, b, 0, now).0, now);
      events := [Handshake(0, now)] + rest;
      assert events[1..] == rest;
      assert Decisions(r, a, events, true)[1..] == Decisions(r, Check(r, a, 0, now).0, rest, true);
      assert Decisions(r, b, events, false)[1..] == Decisions(r, Check(r, b, 0, now).0, rest, false);
    } else {
      var wait := 0.0;
      if high < 1.0 {
        wait := WaitForOne(r, high);
      }
      end := now + wait;
      LevelLater(r, a, 0, now, wait);
      LevelLater(r, b, 0, now, wait);
      events := [Handshake(0, end)];
      OneHandshake(r, a, end, true);
      OneHandshake(r, b, end, false);
    }
  }

  /** After ten idle minutes a drained bucket of a long window is still not full, yet it is thrown away. */
  lemma PrunedTooEarly(r: Rate, idle: real)
    requires 0.0 < r.refill && Credit(r, STALE_AFTER) < r.capacity && 0.0 <= idle
    ensures var kept := Limiter(map[0 := Bucket(0.0, idle)], 0.0);
            var later := idle + STALE_AFTER;
            && Sound(r, kept, later) && Sound(r, Cleanup(kept, later), later)
            && Level(r, Cleanup(kept, later), 0, later) > Level(r, kept, 0, later)
  {
    hide Credit;
    CreditMonotone(r, 0.0, STALE_AFTER);
    CreditSum(r, 0.0, 0.0);
  }

  lemma LongWindowShowsPruning(capacity: real, window: real)
    requires window > STALE_AFTER && capacity >= 1.0
    ensures !PruningNeverShows(capacity, window)
  {
    hide Credit;
    var r := RateOf(capacity, window);
    WindowRefills(capacity, window);
    CreditStrict(r, STALE_AFTER, window);
    Distinguished(r);
  }

  lemma CreditStrict(r: Rate, a: real, b: real)
    requires a < b && 0.0 < r.refill
    ensures Credit(r, a) < Credit(r, b)
  {}

  lemma Distinguished(r: Rate)
    requires 0.0 < r.refill && 1.0 <= r.capacity && Credit(r, STALE_AFTER) < r.capacity
    ensures exists events: seq<Event>, end: real | Ordered(0.0, events, end) ::
              Decisions(r, Fresh(0.0), events, true) != Decisions(r, Fresh(0.0), events, false)
  {
    hide Credit, Level, Cleanup;
    var l := Fresh(0.0);
    var spend, idle := Drain(r, l, 0.0);
    StartsNoLater(0.0, spend, idle);
    var kept := Limiter(map[0 := Bucket(0.0, idle)], 0.0);
    var later := idle + STALE_AFTER;
    PrunedTooEarly(r, idle);
    var pruned := Cleanup(kept, later);
    var probe, end := TellApart(r, pruned, kept, later);
    var tail := [Prune(later)] + probe;
    assert tail[1..] == probe;
    DecisionsSplit(r, l, spend, tail, true);
    DecisionsSplit(r, l, spend, tail, false);
    OrderedSplit(0.0, spend, idle, tail, end);
    assert Decisions(r, kept, tail, true)[1..] == Decisions(r, pruned, probe, true);
    assert Decisions(r, kept, tail, false)[1..] == Decisions(r, kept, probe, false);
    assert Decisions(r, l, spend + tail, true)[|spend|..] == Decisions(r, kept, tail, true);
    assert Decisions(r, l, spend + tail, false)[|spend|..] == Decisions(r, kept, tail, false);
  }

  lemma {:induction false} StartsNoLater(start: real, events: seq<Event>, end: real)
    requires Ordered(start, events, end)
    ensures start <= end
    decreases |events|
  {
    if events != [] {
      StartsNoLater(events[0].now, events[1..], end);
    }
  }

  // ---------------------------------------------------------------------------------------------
  // How often a client is admitted

  /**
   Over any stretch of any run of a limiter made with this capacity and window, however much happened before it, a
   client is admitted at most `capacity` times plus what refills during the stretch.
   */
  ghost predicate AdmissionsAreBounded(capacity: real, window: real) {
    var r := RateOf(capacity, window);
    forall start: real, before: seq<Event>, from: real, stretch: seq<Event>, to: real, ip: Ip
      | Ordered(start, before, from) && Ordered(from, stretch, to) ::
      Admissions(r, After(r, Fresh(start), before, true), stretch, ip) as real <= capacity + Credit(r, to - from)
  }

  lemma {:induction false} AdmissionsSplit(r: Rate, l: Limiter, first: seq<Event>, second: seq<Event>, ip: Ip)
    ensures Admissions(r, l, first + second, ip)
         == Admissions(r, l, first, ip) + Admissions(r, After(r, l, first, true), second, ip)
    ensures After(r, l, first + second, true) == After(r, After(r, l, first, true), second, true)
    decreases |first|
  {
    hide Step;
    if first == [] {
      assert first + second == second;
    } else {
      assert (first + second)[0] == first[0] && (first + second)[1..] == first[1..] + second;
      AdmissionsSplit(r, Step(r, l, first[0], true).0, first[1..], second, ip);
    }
  }

  lemma {:induction false} TinyCapacityAdmissions(r: Rate, l: Limiter, events: seq<Event>, ip: Ip)
    requires r.capacity < 1.0
    ensures Admissions(r, l, events, ip) == 0
    decreases |events|
  {
    if events != [] {
      TinyCapacityAdmissions(r, Step(r, l, events[0], true).0, events[1..], ip);
    }
  }

  /** Pruning ten minutes after a bucket was drained throws it away. */
  lemma PruneDrained(r: Rate, l: Limiter, idle: real)
    requires l.buckets == map[0 := Bucket(0.0, idle)] && l.lastCleanup <= idle
    ensures After(r, l, [Prune(idle + STALE_AFTER)], true) == Limiter(map[], idle + STALE_AFTER)
    ensures Admissions(r, l, [Prune(idle + STALE_AFTER)], 0) == 0
  {
    var prune := [Prune(idle + STALE_AFTER)];
    assert prune[1..] == [];
    assert Cleanup(l, idle + STALE_AFTER).buckets == map[];
  }

  /** A full bucket is drained, idles for ten minutes and is full again: one capacity for ten minutes of refill. */
  lemma OneCycle(r: Rate, l: Limiter, now: real) returns (events: seq<Event>, end: real)
    requires 0.0 < r.refill && 1.0 <= r.capacity && l.buckets == map[] && l.lastCleanup <= now
    ensures Ordered(now, events, end) && now <= end
    ensures After(r, l, events, true) == Limiter(map[], end)
    ensures Admissions(r, l, events, 0) as real == r.capacity + Credit(r, end - now) - Credit(r, STALE_AFTER)
  {
    hide Credit, Step, After, Admissions;
    var spend, idle := Drain(r, l, now);
    StartsNoLater(now, spend, idle);
    end := idle + STALE_AFTER;
    var prune := [Prune(end)];
    events := spend + prune;
    AdmissionsSplit(r, l, spend, prune, 0);
    PruneDrained(r, Limiter(map[0 := Bucket(0.0, idle)], l.lastCleanup), idle);
    OrderedSplit(now, spend, idle, prune, end);
    CreditSum(r, idle - now, STALE_AFTER);
  }

  lemma {:induction false} Cycles(r: Rate, l: Limiter, now: real, n: nat) returns (events: seq<Event>, end: real)
    requires 0.0 < r.refill && 1.0 <= r.capacity && l.buckets == map[] && l.lastCleanup <= now
    ensures Ordered(now, events, end) && now <= end
    ensures After(r, l, events, true).buckets == map[] && After(r, l, events, true).lastCleanup <= end
    ensures Admissions(r, l, events, 0) as real == Times(n, r.capacity - Credit(r, STALE_AFTER)) + Credit(r, end - now)
    decreases n
  {
    hide Credit, Step, After, Admissions, Times;
    if n == 0 {
      events, end := [], now;
      CreditSum(r, 0.0, 0.0);
      NothingHappens(r, l);
      NoTimes(r.capacity - Credit(r, STALE_AFTER));
    } else {
      var first, middle := OneCycle(r, l, now);
      var second;
      second, end := Cycles(r, After(r, l, first, true), middle, n - 1);
      events := first + second;
      AdmissionsSplit(r, l, first, second, 0);
      OrderedSplit(now, first, middle, second, end);
      CreditSum(r, middle - now, end - middle);
      OneTimesMore(n, r.capacity - Credit(r, STALE_AFTER));
    }
  }

  function Times(n: nat, x: real): real { n as real * x }

  lemma NoTimes(x: real)
    ensures Times(0, x) == 0.0
  {}

  lemma OneTimesMore(n: nat, x: real)
    requires n > 0
    ensures Times(n, x) == Times(n - 1, x) + x
  {
    assert n as real == (n - 1) as real + 1.0;
  }

  /** However small the gain of one cycle, enough of them exceed any amount. */
  lemma EnoughTimes(x: real, bound: real) returns (n: nat)
    requires 0.0 < x && 0.0 <= bound
    ensures Times(n, x) > bound
  {
    QuotientSign(bound, x);
    n := (bound / x).Floor + 1;
    TimesQuotient(bound, x, n as real);
  }

  lemma TimesQuotient(bound: real, x: real, n: real)
    requires 0.0 < x && n > bound / x
    ensures n * x > bound
  {
    assert bound / x * x == bound;
    assert (n - bound / x) * x > 0.0;
  }

  lemma LongWindowExceeds(capacity: real, window: real)
    requires window > STALE_AFTER && capacity >= 1.0
    ensures !AdmissionsAreBounded(capacity, window)
  {
    hide Credit, After, Admissions, Times;
    var r := RateOf(capacity, window);
    WindowRefills(capacity, window);
    CreditStrict(r, STALE_AFTER, window);
    var n := EnoughTimes(capacity - Credit(r, STALE_AFTER), capacity);
    NothingHappens(r, Fresh(0.0));
    var stretch, to := Cycles(r, Fresh(0.0), 0.0, n);
    assert Ordered(0.0, [], 0.0);
    assert Admissions(r, After(r, Fresh(0.0), [], true), stretch, 0) as real > capacity + Credit(r, to - 0.0);
  }

  lemma NothingHappens(r: Rate, l: Limiter)
    ensures After(r, l, [], true) == l
    ensures forall ip :: Admissions(r, l, [], ip) == 0
  {}

  /**
   The admissions of a client are bounded by capacity and refill exactly if the capacity is not negative and the
   window is at most ten minutes or nobody gets in: beyond ten minutes pruning hands out full buckets too early.
   */
  lemma AdmissionBoundIff(capacity: real, window: real)
    ensures AdmissionsAreBounded(capacity, window) <==> 0.0 <= capacity && (window <= STALE_AFTER || capacity < 1.0)
  {
    var r := RateOf(capacity, window);
    if 0.0 <= capacity && (window <= STALE_AFTER || capacity < 1.0) {
      BoundHolds(capacity, window);
    } else if capacity < 0.0 {
      NothingHappens(r, Fresh(0.0));
      CreditSum(r, 0.0, 0.0);
      assert Ordered(0.0, [], 0.0);
      assert Admissions(r, After(r, Fresh(0.0), [], true), [], 0) as real > capacity + Credit(r, 0.0 - 0.0);
    } else {
      LongWindowExceeds(capacity, window);
    }
  }

  lemma BoundHolds(capacity: real, window: real)
    requires 0.0 <= capacity && (window <= STALE_AFTER || capacity < 1.0)
    ensures AdmissionsAreBounded(capacity, window)
  {
    hide Credit, After, Admissions;
    var r := RateOf(capacity, window);
    WindowRefills(capacity, window);
    forall start: real, before: seq<Event>, from: real, stretch: seq<Event>, to: real, ip: Ip
      | Ordered(start, before, from) && Ordered(from, stretch, to)
      ensures Admissions(r, After(r, Fresh(start), before, true), stretch, ip) as real
           <= capacity + Credit(r, to - from)
    {
      if window <= STALE_AFTER {
        ShortWindowRefills(capacity, window);
        StretchBound(r, start, before, from, stretch, to, ip);
      } else {
        TinyCapacityAdmissions(r, After(r, Fresh(start), before, true), stretch, ip);
        StartsNoLater(from, stretch, to);
        CreditMonotone(r, 0.0, to - from);
        CreditSum(r, 0.0, 0.0);
      }
    }
  }
}
