/** The in-memory sliding-window rate limiter of common/rate-limit.go.

    The limiter keeps, per key, a queue of at most `max` admission times and throws whole queues away when
    they have been idle for too long.  The reference is an unbounded log of every admission.  The main results
    say that the two admit exactly the same requests over every run, and when eviction makes them differ. */
module RateLimit {

  // ---------- The limiter ----------

  type Store = map<string, seq<int>>

  datatype Decision = Decision(store: Store, allowed: bool)

  /** One call of Request.  Queues are ordered from the oldest admission to the newest. */
  function Requested(store: Store, key: string, max: nat, duration: int, now: int): Decision
    requires NoEmptyQueue(store)
  {
    if key !in store then
      Decision(store[key := [now]], true)
    else if |store[key]| < max then
      Decision(store[key := store[key] + [now]], true)
    else if now - store[key][0] >= duration then
      Decision(store[key := store[key][1..] + [now]], true)
    else
      Decision(store, false)
  }

  predicate NoEmptyQueue(store: Store) {
    forall k | k in store :: store[k] != []
  }

  predicate Expired(queue: seq<int>, expiration: int, now: int) {
    queue == [] || now - queue[|queue| - 1] > expiration
  }

  /** One pass of the background eviction. */
  function Evicted(store: Store, expiration: int, now: int): Store {
    map k | k in store && !Expired(store[k], expiration, now) :: store[k]
  }

  class InMemoryRateLimiter {
    var store: Store
    const expiration: nat

    ghost predicate Valid()
      reads this
    {
      NoEmptyQueue(store)
    }

    constructor (expirationSeconds: nat)
      ensures Valid() && store == map[] && expiration == expirationSeconds
    {
      store := map[];
      expiration := expirationSeconds;
    }

    method Request(key: string, maxRequestNum: nat, duration: int, now: int) returns (allowed: bool)
      requires Valid()
      modifies this
      ensures Valid()
      ensures Decision(store, allowed) == Requested(old(store), key, maxRequestNum, duration, now)
    {
      if key in store {
        var queue := store[key];
        if |queue| < maxRequestNum {
          store := store[key := queue + [now]];
          return true;
        } else {
          if now - queue[0] >= duration {
            queue := queue[1..];
            store := store[key := queue + [now]];
            return true;
          } else {
            return false;
          }
        }
      } else {
        store := store[key := []];
        store := store[key := store[key] + [now]];
        assert [] + [now] == [now];
      }
      return true;
    }

    /** The body of the eviction goroutine between two sleeps. */
    method ClearExpiredItems(now: int)
      requires Valid()
      modifies this
      ensures Valid()
      ensures store == Evicted(old(store), expiration, now)
    {
      var pending := store.Keys;
      while pending != {}
        invariant pending <= old(store).Keys
        invariant store == map k | k in old(store) && (k in pending || !Expired(old(store)[k], expiration, now))
                             :: old(store)[k]
        decreases |pending|
      {
        var key :| key in pending;
        var queue := store[key];
        if |queue| == 0 || now - queue[|queue| - 1] > expiration {
          store := store - {key};
        }
        pending := pending - {key};
      }
    }
  }

  // ---------- The reference: an unbounded log of admissions ----------

  type Log = string -> seq<int>

  /** How many logged admissions lie in the half-open window [from, from + length). */
  function InWindow(log: seq<int>, from: int, length: int): nat {
    if log == [] then 0
    else InWindow(log[..|log| - 1], from, length) + if from <= log[|log| - 1] < from + length then 1 else 0
  }

  /** The reference admits a request when fewer than `max` admissions happened in the last `duration` seconds,
      the current one included. */
  predicate LogAdmits(log: seq<int>, max: nat, duration: int, now: int) {
    InWindow(log, now - duration + 1, duration) < max
  }

  // ---------- Runs ----------

  datatype Policy = Policy(max: nat, duration: int)

  datatype Event = Request(key: string, now: int) | Cleanup(now: int)

  /** What a key is allowed is fixed for the run; the first request of a key is admitted even when max is 0. */
  type Policies = string -> Policy

  function EffectiveMax(p: Policy): nat { if p.max == 0 then 1 else p.max }

  predicate Monotone(clock: int, events: seq<Event>)
    decreases |events|
  {
    events == [] || (clock <= events[0].now && Monotone(events[0].now, events[1..]))
  }

  /** The answers the limiter gives, in order, one per request. */
  function Answers(store: Store, pol: Policies, expiration: int, events: seq<Event>): seq<bool>
    requires NoEmptyQueue(store)
    decreases |events|
  {
    if events == [] then [] else
    match events[0]
    case Cleanup(now) => Answers(Evicted(store, expiration, now), pol, expiration, events[1..])
    case Request(key, now) =>
      var d := Requested(store, key, pol(key).max, pol(key).duration, now);
      [d.allowed] + Answers(d.store, pol, expiration, events[1..])
  }

  function Logged(log: Log, key: string, now: int): Log {
    k => if k == key then log(k) + [now] else log(k)
  }

  function LogAfter(log: Log, pol: Policies, events: seq<Event>): Log {
    if events == [] then log else
    match events[0]
    case Cleanup(_) => LogAfter(log, pol, events[1..])
    case Request(key, now) =>
      if LogAdmits(log(key), EffectiveMax(pol(key)), pol(key).duration, now)
      then LogAfter(Logged(log, key, now), pol, events[1..])
      else LogAfter(log, pol, events[1..])
  }

  function LogAnswers(log: Log, pol: Policies, events: seq<Event>): seq<bool> {
    if events == [] then [] else
    match events[0]
    case Cleanup(_) => LogAnswers(log, pol, events[1..])
    case Request(key, now) =>
      if LogAdmits(log(key), EffectiveMax(pol(key)), pol(key).duration, now)
      then [true] + LogAnswers(Logged(log, key, now), pol, events[1..])
      else [false] + LogAnswers(log, pol, events[1..])
  }

  /** The admissions of the limiter itself, added to a log. */
  function AdmittedAfter(store: Store, log: Log, pol: Policies, expiration: int, events: seq<Event>): Log
    requires NoEmptyQueue(store)
    decreases |events|
  {
    if events == [] then log else
    match events[0]
    case Cleanup(now) => AdmittedAfter(Evicted(store, expiration, now), log, pol, expiration, events[1..])
    case Request(key, now) =>
      var d := Requested(store, key, pol(key).max, pol(key).duration, now);
      AdmittedAfter(d.store, if d.allowed then Logged(log, key, now) else log, pol, expiration, events[1..])
  }

  // ---------- Refinement ----------

  ghost predicate Sorted(s: seq<int>) {
    forall i, j | 0 <= i < j < |s| :: s[i] <= s[j]
  }

  function QueueOf(store: Store, key: string): seq<int> {
    if key in store then store[key] else []
  }

  /** The log is `older + queue`, and nothing in `older` can matter unless the queue is full. */
  ghost predicate Tracks(older: seq<int>, queue: seq<int>, p: Policy, clock: int) {
    && Sorted(queue)
    && |queue| <= EffectiveMax(p)
    && (forall x | x in older :: x <= clock)
    && (forall x | x in queue :: x <= clock)
    && (queue != [] ==> forall x | x in older :: x <= queue[0])
    && (|queue| < EffectiveMax(p) ==> forall x | x in older :: clock - x >= p.duration)
  }

  ghost predicate KeyRefines(store: Store, older: Log, log: Log, pol: Policies, clock: int, k: string) {
    log(k) == older(k) + QueueOf(store, k) && Tracks(older(k), QueueOf(store, k), pol(k), clock)
  }

  ghost predicate Refines(store: Store, older: Log, log: Log, pol: Policies, clock: int) {
    && NoEmptyQueue(store)
    && forall k :: KeyRefines(store, older, log, pol, clock, k)
  }

  lemma {:induction false} WindowSplit(a: seq<int>, b: seq<int>, from: int, length: int)
    ensures InWindow(a + b, from, length) == InWindow(a, from, length) + InWindow(b, from, length)
  {
    if b == [] {
      assert a + b == a;
    } else {
      assert (a + b)[..|a + b| - 1] == a + b[..|b| - 1];
      WindowSplit(a, b[..|b| - 1], from, length);
    }
  }

  lemma {:induction false} WindowExtremes(s: seq<int>, from: int, length: int)
    ensures InWindow(s, from, length) <= |s|
    ensures (forall x | x in s :: from <= x < from + length) ==> InWindow(s, from, length) == |s|
    ensures (forall x | x in s :: !(from <= x < from + length)) ==> InWindow(s, from, length) == 0
  {
    if s != [] {
      var init := s[..|s| - 1];
      WindowExtremes(init, from, length);
      assert s[|s| - 1] in s;
      assert forall x | x in init :: x in s;
    }
  }

  /** A queue that is not full sees every live admission. */
  lemma ShortQueueCounts(older: seq<int>, queue: seq<int>, duration: int, now: int)
    requires forall x | x in older :: now - x >= duration
    ensures InWindow(older + queue, now - duration + 1, duration) <= |queue|
  {
    WindowSplit(older, queue, now - duration + 1, duration);
    WindowExtremes(queue, now - duration + 1, duration);
    WindowExtremes(older, now - duration + 1, duration);
  }

  /** A queue whose head is live is live as a whole. */
  lemma LiveHeadFillsWindow(older: seq<int>, queue: seq<int>, duration: int, now: int)
    requires queue != [] && Sorted(queue) && now - queue[0] < duration
    requires forall x | x in queue :: x <= now
    ensures InWindow(older + queue, now - duration + 1, duration) >= |queue|
  {
    WindowSplit(older, queue, now - duration + 1, duration);
    WindowExtremes(queue, now - duration + 1, duration);
  }

  /** The queue alone decides what the whole log would decide. */
  lemma QueueDecides(older: seq<int>, queue: seq<int>, p: Policy, clock: int, now: int)
    requires Tracks(older, queue, p, clock) && clock <= now
    ensures LogAdmits(older + queue, EffectiveMax(p), p.duration, now)
            <==> |queue| < EffectiveMax(p) || now - queue[0] >= p.duration
  {
    if |queue| < EffectiveMax(p) {
      ShortQueueCounts(older, queue, p.duration, now);
    } else if now - queue[0] >= p.duration {
      assert older + queue == older + [queue[0]] + queue[1..];
      ShortQueueCounts(older + [queue[0]], queue[1..], p.duration, now);
    } else {
      LiveHeadFillsWindow(older, queue, p.duration, now);
    }
  }

  /** The part of the key's history that leaves the queue when `now` is admitted. */
  function Dropped(queue: seq<int>, p: Policy): seq<int> {
    if |queue| < p.max || queue == [] then [] else [queue[0]]
  }

  lemma SlideTracks(older: seq<int>, queue: seq<int>, p: Policy, clock: int, now: int)
    requires Tracks(older, queue, p, clock) && clock <= now
    requires |queue| < EffectiveMax(p) || now - queue[0] >= p.duration
    ensures Tracks(older + Dropped(queue, p), queue[|Dropped(queue, p)|..] + [now], p, now)
  {
    var kept := queue[|Dropped(queue, p)|..] + [now];
    assert forall x | x in kept :: x in queue || x == now;
    assert forall i | 0 <= i < |queue| :: queue[i] in queue;
  }

  /** What a request does to the queues. */
  lemma RequestedQueues(store: Store, key: string, p: Policy, now: int)
    requires NoEmptyQueue(store)
    ensures var d := Requested(store, key, p.max, p.duration, now);
            var queue := QueueOf(store, key);
            && d.allowed == (|queue| < EffectiveMax(p) || now - queue[0] >= p.duration)
            && NoEmptyQueue(d.store)
            && (forall k | k != key :: QueueOf(d.store, k) == QueueOf(store, k))
            && QueueOf(d.store, key) == if d.allowed then queue[|Dropped(queue, p)|..] + [now] else queue
  {
  }

  /** One request: same answer, and the refinement survives it. */
  lemma RequestRefines(store: Store, older: Log, log: Log, pol: Policies, clock: int, key: string, now: int)
      returns (older': Log)
    requires Refines(store, older, log, pol, clock) && clock <= now
    ensures var d := Requested(store, key, pol(key).max, pol(key).duration, now);
            && d.allowed == LogAdmits(log(key), EffectiveMax(pol(key)), pol(key).duration, now)
            && Refines(d.store, older', if d.allowed then Logged(log, key, now) else log, pol, now)
  {
    var p, queue := pol(key), QueueOf(store, key);
    var d := Requested(store, key, p.max, p.duration, now);
    assert KeyRefines(store, older, log, pol, clock, key);
    QueueDecides(older(key), queue, p, clock, now);
    RequestedQueues(store, key, p, now);
    if d.allowed {
      older' := AdmissionRefines(store, d.store, older, log, pol, clock, key, now);
    } else {
      ClockAdvances(older(key), queue, p, clock, now);
      assert older(key) + [] == older(key);
      older' := OneKeyRefines(store, d.store, older, [], log, log, pol, clock, key, now);
    }
  }

  lemma AdmissionRefines(store: Store, store': Store, older: Log, log: Log, pol: Policies, clock: int, key: string,
                         now: int)
      returns (older': Log)
    requires Refines(store, older, log, pol, clock) && clock <= now && NoEmptyQueue(store')
    requires forall k | k != key :: QueueOf(store', k) == QueueOf(store, k)
    requires var queue := QueueOf(store, key);
             && (|queue| < EffectiveMax(pol(key)) || now - queue[0] >= pol(key).duration)
             && QueueOf(store', key) == queue[|Dropped(queue, pol(key))|..] + [now]
    ensures Refines(store', older', Logged(log, key, now), pol, now)
  {
    var queue := QueueOf(store, key);
    var dropped := Dropped(queue, pol(key));
    assert KeyRefines(store, older, log, pol, clock, key);
    SlideTracks(older(key), queue, pol(key), clock, now);
    assert older(key) + queue + [now] == older(key) + dropped + (queue[|dropped|..] + [now]);
    older' := OneKeyRefines(store, store', older, dropped, log, Logged(log, key, now), pol, clock, key, now);
  }

  lemma OneKeyRefines(store: Store, store': Store, older: Log, dropped: seq<int>, log: Log, log': Log,
                      pol: Policies, clock: int, key: string, now: int)
      returns (older': Log)
    requires Refines(store, older, log, pol, clock) && clock <= now && NoEmptyQueue(store')
    requires forall k | k != key :: QueueOf(store', k) == QueueOf(store, k)
    requires forall k | k != key :: log'(k) == log(k)
    requires log'(key) == older(key) + dropped + QueueOf(store', key)
    requires Tracks(older(key) + dropped, QueueOf(store', key), pol(key), now)
    ensures Refines(store', older', log', pol, now)
  {
    older' := k => if k == key then older(k) + dropped else older(k);
    forall k ensures KeyRefines(store', older', log', pol, now, k) {
      assert KeyRefines(store, older, log, pol, clock, k);
      if k != key {
        ClockAdvances(older(k), QueueOf(store, k), pol(k), clock, now);
      }
    }
  }

  lemma ClockAdvances(older: seq<int>, queue: seq<int>, p: Policy, clock: int, now: int)
    requires Tracks(older, queue, p, clock) && clock <= now
    ensures Tracks(older, queue, p, now)
  {
  }

  /** Eviction only forgets what no window can see, provided the window is at most one second longer than the
      expiration. */
  lemma CleanupRefines(store: Store, older: Log, log: Log, pol: Policies, clock: int, expiration: int, now: int)
      returns (older': Log)
    requires Refines(store, older, log, pol, clock) && clock <= now
    requires forall k :: pol(k).duration <= expiration + 1
    ensures Refines(Evicted(store, expiration, now), older', log, pol, now)
  {
    var store' := Evicted(store, expiration, now);
    older' := k => if k in store' then older(k) else older(k) + QueueOf(store, k);
    forall k ensures KeyRefines(store', older', log, pol, now, k) {
      var queue := QueueOf(store, k);
      assert KeyRefines(store, older, log, pol, clock, k);
      if k in store && k !in store' {
        forall x | x in older(k) + queue ensures now - x >= pol(k).duration {
          assert queue[0] <= queue[|queue| - 1] && x <= queue[|queue| - 1];
        }
      }
    }
  }

  /** From any refining state, the limiter answers every request as the log would. */
  lemma {:induction false} AnswersFromRefiningState(
      store: Store, older: Log, log: Log, pol: Policies, expiration: int, clock: int, events: seq<Event>)
    requires Refines(store, older, log, pol, clock) && Monotone(clock, events)
    requires forall k :: pol(k).duration <= expiration + 1
    ensures Answers(store, pol, expiration, events) == LogAnswers(log, pol, events)
    ensures AdmittedAfter(store, log, pol, expiration, events) == LogAfter(log, pol, events)
    decreases |events|
  {
    if events != [] {
      match events[0]
      case Cleanup(now) =>
        var older' := CleanupRefines(store, older, log, pol, clock, expiration, now);
        AnswersFromRefiningState(Evicted(store, expiration, now), older', log, pol, expiration, now, events[1..]);
      case Request(key, now) =>
        var older' := RequestRefines(store, older, log, pol, clock, key, now);
        var d := Requested(store, key, pol(key).max, pol(key).duration, now);
        var log' := if d.allowed then Logged(log, key, now) else log;
        AnswersFromRefiningState(d.store, older', log', pol, expiration, now, events[1..]);
    }
  }

  function EmptyLog(): Log { _ => [] }

  /** Main result: over every run of requests and evictions with a clock that never goes back, a fresh limiter
      admits exactly the requests an unbounded log admits. */
  lemma ExactSlidingWindow(pol: Policies, expiration: int, clock: int, events: seq<Event>)
    requires Monotone(clock, events)
    requires forall k :: pol(k).duration <= expiration + 1
    ensures Answers(map[], pol, expiration, events) == LogAnswers(EmptyLog(), pol, events)
    ensures AdmittedAfter(map[], EmptyLog(), pol, expiration, events) == LogAfter(EmptyLog(), pol, events)
  {
    AnswersFromRefiningState(map[], EmptyLog(), EmptyLog(), pol, expiration, clock, events);
  }

  // ---------- When eviction is too early ----------

  /** `n` requests of a key at time 0, an eviction as soon as it can happen, and one more request. */
  function Burst(key: string, n: nat, expiration: nat): seq<Event> {
    if n == 0 then [Cleanup(expiration + 1), Request(key, expiration + 1)]
    else [Request(key, 0)] + Burst(key, n - 1, expiration)
  }

  lemma {:induction false} BurstIsMonotone(key: string, n: nat, expiration: nat)
    ensures Monotone(0, Burst(key, n, expiration))
  {
    if n != 0 {
      BurstIsMonotone(key, n - 1, expiration);
      assert Burst(key, n, expiration)[1..] == Burst(key, n - 1, expiration);
    } else {
      assert Monotone(expiration + 1, Burst(key, 0, expiration)[1..][1..]);
    }
  }

  /** The full queue is evicted while its admissions are still in the window. */
  lemma EvictionDiverges(store: Store, log: Log, pol: Policies, key: string, expiration: nat)
    requires NoEmptyQueue(store) && store.Keys <= {key} && log(key) == QueueOf(store, key)
    requires (forall x | x in log(key) :: x == 0) && |log(key)| == EffectiveMax(pol(key))
    requires pol(key).duration > expiration + 1
    ensures Answers(store, pol, expiration, Burst(key, 0, expiration))
            != LogAnswers(log, pol, Burst(key, 0, expiration))
  {
    var events, now := Burst(key, 0, expiration), expiration + 1;
    WindowExtremes(log(key), now - pol(key).duration + 1, pol(key).duration);
    assert store[key][|store[key]| - 1] in log(key);
    assert Evicted(store, expiration, now) == map[];
    var last := events[1..];
    assert last == [Request(key, now)] && last[1..] == [];
    assert Answers(map[], pol, expiration, last)[0];
    assert !LogAnswers(log, pol, last)[0];
  }

  lemma FirstAnswers(store: Store, log: Log, pol: Policies, key: string, expiration: nat, rest: seq<Event>)
    requires NoEmptyQueue(store) && |log(key)| == |QueueOf(store, key)| < EffectiveMax(pol(key))
    ensures var d := Requested(store, key, pol(key).max, pol(key).duration, 0);
            var events := [Request(key, 0)] + rest;
            && d.allowed && NoEmptyQueue(d.store) && QueueOf(d.store, key) == QueueOf(store, key) + [0]
            && Answers(store, pol, expiration, events) == [true] + Answers(d.store, pol, expiration, rest)
            && LogAnswers(log, pol, events) == [true] + LogAnswers(Logged(log, key, 0), pol, rest)
  {
    assert ([Request(key, 0)] + rest)[1..] == rest;
    WindowExtremes(log(key), 0 - pol(key).duration + 1, pol(key).duration);
  }

  /** A burst that fills the queue is answered differently. */
  lemma {:induction false} BurstDiverges(n: nat, store: Store, log: Log, pol: Policies, key: string, expiration: nat)
    requires NoEmptyQueue(store) && store.Keys <= {key} && log(key) == QueueOf(store, key)
    requires (forall x | x in log(key) :: x == 0) && |log(key)| + n == EffectiveMax(pol(key))
    requires pol(key).duration > expiration + 1
    ensures Answers(store, pol, expiration, Burst(key, n, expiration))
            != LogAnswers(log, pol, Burst(key, n, expiration))
  {
    if n == 0 {
      EvictionDiverges(store, log, pol, key, expiration);
    } else {
      var rest := Burst(key, n - 1, expiration);
      var d := Requested(store, key, pol(key).max, pol(key).duration, 0);
      FirstAnswers(store, log, pol, key, expiration, rest);
      BurstDiverges(n - 1, d.store, Logged(log, key, 0), pol, key, expiration);
      SameHead(true, Answers(d.store, pol, expiration, rest), LogAnswers(Logged(log, key, 0), pol, rest));
    }
  }

  lemma EvictionAdmits(store: Store, log: Log, pol: Policies, key: string, expiration: nat)
    requires NoEmptyQueue(store) && store.Keys <= {key} && key in store && forall x | x in store[key] :: x == 0
    ensures AdmittedAfter(store, log, pol, expiration, Burst(key, 0, expiration)) == Logged(log, key, expiration + 1)
  {
    var events, now := Burst(key, 0, expiration), expiration + 1;
    assert store[key][|store[key]| - 1] in store[key];
    assert Evicted(store, expiration, now) == map[];
    var last := events[1..];
    assert last == [Request(key, now)] && last[1..] == [];
    var d := Requested(map[], key, pol(key).max, pol(key).duration, now);
    assert d.allowed && AdmittedAfter(d.store, Logged(log, key, now), pol, expiration, []) == Logged(log, key, now);
  }

  lemma FirstAdmission(store: Store, log: Log, pol: Policies, key: string, expiration: nat, rest: seq<Event>)
    requires NoEmptyQueue(store) && |QueueOf(store, key)| < EffectiveMax(pol(key))
    ensures var d := Requested(store, key, pol(key).max, pol(key).duration, 0);
            && NoEmptyQueue(d.store) && QueueOf(d.store, key) == QueueOf(store, key) + [0] && d.store.Keys
                == store.Keys + {key}
            && AdmittedAfter(store, log, pol, expiration, [Request(key, 0)] + rest)
               == AdmittedAfter(d.store, Logged(log, key, 0), pol, expiration, rest)
  {
    assert ([Request(key, 0)] + rest)[1..] == rest;
  }

  lemma AllInWindow(zeros: seq<int>, last: int, length: int)
    requires (forall x | x in zeros :: x == 0) && 0 <= last < length
    ensures InWindow(zeros + [last], 0, length) == |zeros| + 1
  {
    WindowExtremes(zeros, 0, length);
    assert (zeros + [last])[..|zeros|] == zeros;
  }

  lemma StaysZero(log: seq<int>)
    requires forall x | x in log :: x == 0
    ensures forall x | x in log + [0] :: x == 0
  {
  }

  /** In such a burst the limiter admits one request more than fit into the window. */
  lemma {:induction false} BurstOverfills(n: nat, store: Store, log: Log, pol: Policies, key: string, expiration: nat)
    requires NoEmptyQueue(store) && store.Keys <= {key} && log(key) == QueueOf(store, key)
    requires (forall x | x in log(key) :: x == 0) && |log(key)| + n == EffectiveMax(pol(key))
    requires pol(key).duration > expiration + 1
    ensures InWindow(AdmittedAfter(store, log, pol, expiration, Burst(key, n, expiration))(key), 0, pol(key).duration)
            == EffectiveMax(pol(key)) + 1
  {
    if n == 0 {
      EvictionAdmits(store, log, pol, key, expiration);
      AllInWindow(log(key), expiration + 1, pol(key).duration);
    } else {
      var d := Requested(store, key, pol(key).max, pol(key).duration, 0);
      FirstAdmission(store, log, pol, key, expiration, Burst(key, n - 1, expiration));
      StaysZero(log(key));
      BurstOverfills(n - 1, d.store, Logged(log, key, 0), pol, key, expiration);
    }
  }

  lemma SameHead(x: bool, a: seq<bool>, b: seq<bool>)
    requires a != b
    ensures [x] + a != [x] + b
  {
    assert ([x] + a)[1..] == a && ([x] + b)[1..] == b;
  }

  ghost predicate ExactOverEveryRun(pol: Policies, expiration: nat) {
    forall clock: int, events: seq<Event> | Monotone(clock, events) ::
      Answers(map[], pol, expiration, events) == LogAnswers(EmptyLog(), pol, events)
  }

  ghost predicate WindowsFit(pol: Policies, expiration: nat) {
    forall k :: pol(k).duration <= expiration + 1
  }

  /** The configuration note asks for durations no larger than the expiration; the exact limit for the policies of a
      limiter is one second more, because eviction waits until a queue is strictly older than the expiration. */
  lemma ExactIffWindowFitsExpiration(pol: Policies, expiration: nat)
    ensures ExactOverEveryRun(pol, expiration) <==> WindowsFit(pol, expiration)
  {
    if WindowsFit(pol, expiration) {
      forall clock, events | Monotone(clock, events)
        ensures Answers(map[], pol, expiration, events) == LogAnswers(EmptyLog(), pol, events)
      {
        ExactSlidingWindow(pol, expiration, clock, events);
      }
    } else {
      var k :| pol(k).duration > expiration + 1;
      BurstIsMonotone(k, EffectiveMax(pol(k)), expiration);
      BurstDiverges(EffectiveMax(pol(k)), map[], EmptyLog(), pol, k, expiration);
    }
  }

  // ---------- The window bound ----------

  ghost predicate Bounded(log: seq<int>, p: Policy, clock: int) {
    && (forall x | x in log :: x <= clock)
    && forall from :: InWindow(log, from, p.duration) <= EffectiveMax(p)
  }

  lemma {:induction false} LaterWindowHoldsLess(log: seq<int>, from: int, now: int, length: int)
    requires forall x | x in log :: x <= now
    requires now - length + 1 <= from
    ensures InWindow(log, from, length) <= InWindow(log, now - length + 1, length)
  {
    if log != [] {
      assert log[|log| - 1] in log;
      var init := log[..|log| - 1];
      assert forall x | x in init :: x in log;
      LaterWindowHoldsLess(init, from, now, length);
    }
  }

  lemma AdmissionKeepsBound(log: seq<int>, p: Policy, clock: int, now: int)
    requires Bounded(log, p, clock) && clock <= now
    requires LogAdmits(log, EffectiveMax(p), p.duration, now)
    ensures Bounded(log + [now], p, now)
  {
    forall from ensures InWindow(log + [now], from, p.duration) <= EffectiveMax(p) {
      assert (log + [now])[..|log|] == log;
      assert InWindow(log, from, p.duration) <= EffectiveMax(p);
      if from <= now < from + p.duration {
        LaterWindowHoldsLess(log, from, now, p.duration);
      }
    }
  }

  lemma {:induction false} RunKeepsBound(log: Log, pol: Policies, clock: int, events: seq<Event>, key: string)
    requires Monotone(clock, events)
    requires forall k :: Bounded(log(k), pol(k), clock)
    ensures forall from :: InWindow(LogAfter(log, pol, events)(key), from, pol(key).duration) <= EffectiveMax(pol(key))
    decreases |events|
  {
    if events == [] {
      assert Bounded(log(key), pol(key), clock);
    } else {
      var now := events[0].now;
      var log' := log;
      if events[0].Request?
          && LogAdmits(log(events[0].key), EffectiveMax(pol(events[0].key)), pol(events[0].key).duration, now) {
        log' := Logged(log, events[0].key, now);
      }
      forall k ensures Bounded(log'(k), pol(k), now) {
        assert Bounded(log(k), pol(k), clock);
        if log' != log && k == events[0].key {
          AdmissionKeepsBound(log(k), pol(k), clock, now);
        }
      }
      RunKeepsBound(log', pol, now, events[1..], key);
    }
  }

  /** No half-open window of `duration` seconds, wherever it starts, ever holds more than the limit. */
  lemma NoWindowOverflows(pol: Policies, clock: int, events: seq<Event>, key: string, from: int)
    requires Monotone(clock, events)
    ensures InWindow(LogAfter(EmptyLog(), pol, events)(key), from, pol(key).duration) <= EffectiveMax(pol(key))
  {
    RunKeepsBound(EmptyLog(), pol, clock, events, key);
  }

  /** The limiter's own admissions of a key keep within the limit in every window of every run. */
  ghost predicate NeverOverfills(pol: Policies, expiration: nat) {
    forall clock: int, events: seq<Event>, key: string, from: int | Monotone(clock, events) ::
      InWindow(AdmittedAfter(map[], EmptyLog(), pol, expiration, events)(key), from, pol(key).duration)
          <= EffectiveMax(pol(key))
  }

  /** That is so exactly when every window fits the expiration. */
  lemma NeverOverfillsIff(pol: Policies, expiration: nat)
    ensures NeverOverfills(pol, expiration) <==> WindowsFit(pol, expiration)
  {
    if WindowsFit(pol, expiration) {
      forall clock, events, key, from | Monotone(clock, events)
        ensures InWindow(AdmittedAfter(map[], EmptyLog(), pol, expiration, events)(key), from, pol(key).duration)
                <= EffectiveMax(pol(key))
      {
        ExactSlidingWindow(pol, expiration, clock, events);
        NoWindowOverflows(pol, clock, events, key, from);
      }
    } else {
      var k :| pol(k).duration > expiration + 1;
      BurstIsMonotone(k, EffectiveMax(pol(k)), expiration);
      BurstOverfills(EffectiveMax(pol(k)), map[], EmptyLog(), pol, k, expiration);
    }
  }
}
