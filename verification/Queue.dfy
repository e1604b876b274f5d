/** The work queue: ready, dirty, in-flight and delayed keys, between awaits of one event loop. */
module Queue {
  import opened Wrappers
  import opened Sequences

  type Key = string

  /** `delayed` maps a key to the deadline of its timer; `available` and `idle` are the two events
      that getters and joiners wait for. */
  datatype Queued = Queued(
    ready: seq<Key>,
    dirty: set<Key>,
    processing: set<Key>,
    delayed: map<Key, real>,
    retries: map<Key, nat>,
    available: bool,
    idle: bool,
    closed: bool,
    immediate: bool)
  {
    predicate Empty() { dirty == {} && processing == {} && delayed == map[] }
  }

  const FRESH := Queued([], {}, {}, map[], map[], false, true, false, false)

  // ----- operations -----

  function CheckIdle(q: Queued): Queued { if q.Empty() then q.(idle := true) else q }

  function OnAdd(q: Queued, key: Key): Queued {
    if q.closed then q
    else
      var r := q.(delayed := q.delayed - {key});
      if key in q.dirty then r
      else if key in q.processing then r.(idle := false, dirty := q.dirty + {key})
      else r.(idle := false, dirty := q.dirty + {key}, ready := q.ready + [key], available := true)
  }

  function OnAddAfter(q: Queued, key: Key, delay: real, now: real): Queued
    requires delay >= 0.0
  {
    if q.closed then q
    else if delay == 0.0 then OnAdd(q, key)
    else if key in q.dirty || (key in q.delayed && q.delayed[key] <= now + delay) then q
    else q.(idle := false, delayed := q.delayed[key := now + delay])
  }

  function OnTimer(q: Queued, key: Key): Queued { OnAdd(q.(delayed := q.delayed - {key}), key) }

  function OnRetry(q: Queued, key: Key, delay: real, now: real): Queued
    requires delay >= 0.0
  {
    if q.closed then q
    else OnAddAfter(q.(retries := q.retries[key := Retries(q, key) + 1]), key, delay, now)
  }

  function Retries(q: Queued, key: Key): nat { if key in q.retries then q.retries[key] else 0 }

  function OnForget(q: Queued, key: Key): Queued { q.(retries := q.retries - {key}) }

  /** One pass through the loop of a getter. */
  datatype Answer = Got(key: Key) | MustWait | QueueClosed

  function OnGet(q: Queued): (Queued, Answer) {
    if q.ready != [] then
      var key := q.ready[0];
      (q.(ready := q.ready[1..], dirty := q.dirty - {key}, processing := q.processing + {key}), Got(key))
    else if q.closed then (q, QueueClosed)
    else (q.(available := false), MustWait)
  }

  /** None: the key is not in flight, and the caller gets an error. */
  function OnDone(q: Queued, key: Key): Option<Queued> {
    if key !in q.processing then None
    else
      var r := q.(processing := q.processing - {key});
      Some(CheckIdle(if key in q.dirty && !q.immediate then r.(ready := q.ready + [key], available := true) else r))
  }

  function OnShutdown(q: Queued, immediate: bool): Queued {
    var now := q.immediate || immediate;
    var r := q.(closed := true, immediate := now, delayed := map[], retries := map[], available := true);
    CheckIdle(if now then r.(ready := [], dirty := {}) else r)
  }

  // ----- what every operation keeps -----

  ghost predicate Consistent(q: Queued) {
    && NoRepeats(q.ready)
    && (forall k :: k in q.ready <==> k in q.dirty && k !in q.processing)
    && q.delayed.Keys !! q.dirty
    && (q.idle <==> q.Empty())
    && (q.ready != [] || q.closed ==> q.available)
    && (q.closed ==> q.delayed == map[] && q.retries == map[])
    && (q.immediate ==> q.closed && q.dirty == {})
  }

  lemma AddConsistent(q: Queued, key: Key)
    requires Consistent(q)
    ensures Consistent(OnAdd(q, key))
    ensures !q.closed ==> key in OnAdd(q, key).dirty
  {
    if !q.closed && key !in q.dirty && key !in q.processing { AppendNew(q.ready, key); }
  }

  lemma AddAfterConsistent(q: Queued, key: Key, delay: real, now: real)
    requires Consistent(q) && delay >= 0.0
    ensures Consistent(OnAddAfter(q, key, delay, now))
    ensures !q.closed && delay > 0.0 ==>
              key in OnAddAfter(q, key, delay, now).dirty || key in OnAddAfter(q, key, delay, now).delayed
  {
    AddConsistent(q, key);
  }

  lemma RetriesConsistent(q: Queued, retries: map<Key, nat>)
    requires Consistent(q) && !q.closed
    ensures Consistent(q.(retries := retries))
  {
  }

  lemma RetryConsistent(q: Queued, key: Key, delay: real, now: real)
    requires Consistent(q) && delay >= 0.0
    ensures Consistent(OnRetry(q, key, delay, now))
  {
    if !q.closed {
      var retries := q.retries[key := Retries(q, key) + 1];
      RetriesConsistent(q, retries);
      AddAfterConsistent(q.(retries := retries), key, delay, now);
    }
  }

  /** A timer fires only while its key is delayed, so the queue is open and the key not dirty. */
  lemma ReleaseConsistent(q: Queued, key: Key)
    requires Consistent(q) && key in q.delayed
    ensures Consistent(OnTimer(q, key)) && key in OnTimer(q, key).dirty
  {
    if key !in q.processing { AppendNew(q.ready, key); }
  }

  lemma GetConsistent(q: Queued)
    requires Consistent(q)
    ensures Consistent(OnGet(q).0)
    ensures OnGet(q).1.Got? ==> OnGet(q).1.key in q.dirty - q.processing
  {
    if q.ready != [] {
      assert q.ready[0] in q.ready;
    }
  }

  lemma DoneConsistent(q: Queued, key: Key)
    requires Consistent(q) && key in q.processing
    ensures Consistent(OnDone(q, key).value) && OnDone(q, key).value.processing == q.processing - {key}
  {
    if key in q.dirty && !q.immediate { AppendNew(q.ready, key); }
    var left := q.(processing := q.processing - {key});
    var again := if key in q.dirty && !q.immediate then left.(ready := q.ready + [key], available := true) else left;
    assert OnDone(q, key).value == CheckIdle(again);
  }

  lemma ShutdownConsistent(q: Queued, immediate: bool)
    requires Consistent(q)
    ensures Consistent(OnShutdown(q, immediate))
  {
  }

  // ----- the backoff -----

  function Doubled(base: real, times: nat): real { if times == 0 then base else 2.0 * Doubled(base, times - 1) }

  /** The rounded-up binary logarithm of `max / delay`. */
  function Cap(base: real, delay: real, max: real): nat
    requires 0.0 < base <= delay
    decreases ((max - delay) / base).Floor
  {
    if delay >= max then 0 else FloorDrops(base, delay, max); 1 + Cap(base, 2.0 * delay, max)
  }

  lemma FloorDrops(base: real, delay: real, max: real)
    requires 0.0 < base <= delay < max
    ensures ((max - 2.0 * delay) / base).Floor < ((max - delay) / base).Floor && ((max - delay) / base).Floor >= 0
  {
    assert (max - 2.0 * delay) / base == (max - delay) / base - delay / base;
    assert delay / base >= 1.0;
  }

  /** The delay before jitter, with the exponent cut off at the cap. */
  function Backoff(base: real, max: real, attempt: nat): real
    requires 0.0 < base <= max
  {
    if attempt >= Cap(base, base, max) then max else Doubled(base, attempt)
  }

  lemma {:induction false} DoubledShift(base: real, times: nat)
    ensures Doubled(base, times + 1) == Doubled(2.0 * base, times)
  {
    if times > 0 { DoubledShift(base, times - 1); }
  }

  lemma {:induction false} DoubledGrows(base: real, times: nat)
    requires base > 0.0
    ensures Doubled(base, times) >= base
  {
    if times > 0 { DoubledGrows(base, times - 1); }
  }

  /** The cap is where doubling first reaches the maximum. */
  lemma {:induction false} CapIsFirst(base: real, delay: real, max: real, attempt: nat)
    requires 0.0 < base <= delay
    ensures attempt >= Cap(base, delay, max) <==> Doubled(delay, attempt) >= max
    decreases attempt
  {
    if delay >= max {
      DoubledGrows(delay, attempt);
    } else if attempt > 0 {
      DoubledShift(delay, attempt - 1);
      CapIsFirst(base, 2.0 * delay, max, attempt - 1);
    }
  }

  /** Cutting the exponent off loses nothing: the delay is the smaller of the doubled base and the
      maximum, however long a key has been failing, and it never shrinks. */
  lemma BackoffIsMinimum(base: real, max: real, attempt: nat)
    requires 0.0 < base <= max
    ensures Backoff(base, max, attempt) == if Doubled(base, attempt) < max then Doubled(base, attempt) else max
    ensures base <= Backoff(base, max, attempt) <= Backoff(base, max, attempt + 1) <= max
  {
    CapIsFirst(base, base, max, attempt);
    CapIsFirst(base, base, max, attempt + 1);
    DoubledGrows(base, attempt);
  }

  function Jittered(base: real, max: real, attempt: nat, factor: real): real
    requires 0.0 < base <= max
  {
    var delay := Backoff(base, max, attempt) * factor;
    if delay < max then delay else max
  }

  /** `low` and `factor` times a delay, the second cut off at `max`. */
  lemma Scaled(delay: real, max: real, low: real, factor: real)
    requires 0.0 <= delay <= max && 0.0 <= low <= factor && low <= 1.0
    ensures 0.0 <= low * delay <= (if delay * factor < max then delay * factor else max) <= max
  {
    assert (factor - low) * delay >= 0.0;
    assert (1.0 - low) * delay >= 0.0;
  }

  lemma JitteredRange(base: real, max: real, jitter: real, attempt: nat, factor: real)
    requires 0.0 < base <= max && 0.0 <= jitter <= 1.0 && 1.0 - jitter <= factor <= 1.0 + jitter
    ensures 0.0 <= (1.0 - jitter) * Backoff(base, max, attempt) <= Jittered(base, max, attempt, factor) <= max
  {
    BackoffIsMinimum(base, max, attempt);
    Scaled(Backoff(base, max, attempt), max, 1.0 - jitter, factor);
  }

  // ----- the queue object -----

  class WorkQueue {
    const baseDelay: real
    const maxDelay: real
    const jitter: real
    var ready: seq<Key>
    var dirty: set<Key>
    var processing: set<Key>
    var delayed: map<Key, real>
    var retries: map<Key, nat>
    var available: bool
    var idle: bool
    var closed: bool
    var immediate: bool

    ghost function Fields(): Queued reads this {
      Queued(ready, dirty, processing, delayed, retries, available, idle, closed, immediate)
    }

    ghost predicate Valid() reads this {
      Consistent(Fields()) && 0.0 < baseDelay <= maxDelay && 0.0 <= jitter <= 1.0
    }

    constructor (baseDelay: real, maxDelay: real, jitter: real)
      requires 0.0 < baseDelay <= maxDelay && 0.0 <= jitter <= 1.0
      ensures Valid() && Fields() == FRESH
      ensures this.baseDelay == baseDelay && this.maxDelay == maxDelay && this.jitter == jitter
    {
      this.baseDelay, this.maxDelay, this.jitter := baseDelay, maxDelay, jitter;
      ready, dirty, processing, delayed, retries := [], {}, {}, map[], map[];
      available, idle, closed, immediate := false, true, false, false;
    }

    method Add(key: Key)
      modifies this
      ensures Fields() == OnAdd(old(Fields()), key)
      ensures old(Valid()) ==> Valid()
    {
      if Consistent(Fields()) { AddConsistent(Fields(), key); }
      if closed { return; }
      delayed := delayed - {key};
      if key in dirty { return; }
      idle := false;
      dirty := dirty + {key};
      if key !in processing {
        ready := ready + [key];
        available := true;
      }
    }

    method AddAfter(key: Key, delay: real, now: real) returns (accepted: bool)
      requires Valid()
      modifies this
      ensures Valid() && accepted == (delay >= 0.0)
      ensures Fields() == if accepted then OnAddAfter(old(Fields()), key, delay, now) else old(Fields())
    {
      if delay < 0.0 { return false; }
      AddAfterConsistent(Fields(), key, delay, now);
      accepted := true;
      if closed { return; }
      if delay == 0.0 { Add(key); return; }
      if key in dirty { return; }
      var deadline := now + delay;
      if key in delayed && delayed[key] <= deadline { return; }
      idle := false;
      delayed := delayed[key := deadline];
    }

    method Release(key: Key)
      requires Valid() && key in delayed
      modifies this
      ensures Valid() && Fields() == OnTimer(old(Fields()), key)
    {
      ReleaseConsistent(Fields(), key);
      delayed := delayed - {key};
      Add(key);
    }

    method NextDelay(attempt: nat, factor: real) returns (delay: real)
      requires 0.0 < baseDelay <= maxDelay && 0.0 <= jitter <= 1.0 && 1.0 - jitter <= factor <= 1.0 + jitter
      ensures delay == Jittered(baseDelay, maxDelay, attempt, factor) && 0.0 <= delay <= maxDelay
    {
      var cap := Cap(baseDelay, baseDelay, maxDelay);
      delay := if attempt >= cap then maxDelay else Doubled(baseDelay, attempt);
      JitteredRange(baseDelay, maxDelay, jitter, attempt, factor);
      delay := if delay * factor < maxDelay then delay * factor else maxDelay;
    }

    method Retry(key: Key, factor: real, now: real) returns (delay: real)
      requires Valid() && 1.0 - jitter <= factor <= 1.0 + jitter
      modifies this
      ensures Valid()
      ensures delay == if old(closed) then 0.0 else Jittered(baseDelay, maxDelay, Retries(old(Fields()), key), factor)
      ensures 0.0 <= delay <= maxDelay
      ensures Fields() == OnRetry(old(Fields()), key, delay, now)
    {
      if closed { return 0.0; }
      var attempt := if key in retries then retries[key] else 0;
      RetriesConsistent(Fields(), retries[key := attempt + 1]);
      retries := retries[key := attempt + 1];
      delay := NextDelay(attempt, factor);
      var accepted := AddAfter(key, delay, now);
    }

    method Forget(key: Key)
      requires Valid()
      modifies this`retries
      ensures Valid() && Fields() == OnForget(old(Fields()), key)
    {
      retries := retries - {key};
    }

    /** The loop of `get` up to the next wait. */
    method Get() returns (answer: Answer)
      requires Valid()
      modifies this
      ensures Valid() && (Fields(), answer) == OnGet(old(Fields()))
    {
      GetConsistent(Fields());
      if ready == [] {
        if closed { return QueueClosed; }
        available := false;
        return MustWait;
      }
      var key := ready[0];
      ready := ready[1..];
      dirty := dirty - {key};
      processing := processing + {key};
      answer := Got(key);
    }

    method Done(key: Key) returns (accepted: bool)
      requires Valid()
      modifies this
      ensures Valid() && accepted == (key in old(processing))
      ensures Fields() == if accepted then OnDone(old(Fields()), key).value else old(Fields())
    {
      if key !in processing { return false; }
      DoneConsistent(Fields(), key);
      processing := processing - {key};
      if key in dirty && !immediate {
        ready := ready + [key];
        available := true;
      }
      SetIdle();
      accepted := true;
    }

    method Shutdown(now: bool)
      requires Valid()
      modifies this
      ensures Valid() && Fields() == OnShutdown(old(Fields()), now)
    {
      ShutdownConsistent(Fields(), now);
      closed := true;
      immediate := immediate || now;
      delayed := map[];
      retries := map[];
      if immediate {
        ready := [];
        dirty := {};
      }
      available := true;
      SetIdle();
    }

    method SetIdle()
      modifies this`idle
      ensures Fields() == CheckIdle(old(Fields()))
    {
      if dirty == {} && processing == {} && delayed == map[] { idle := true; }
    }
  }
}
