/** The queue key by key: what each call does to one key, when a delayed key is due, and how many
    failures a backoff counts. */
module QueueKeys {
  import opened Wrappers
  import opened Queue
  import opened QueueWorkers

  /** What the queue knows of one key: wanted, held by a worker, due at a deadline, failed so often. */
  datatype Life = Life(wanted: bool, held: bool, deadline: Option<real>, failures: nat)

  function LifeOf(q: Queued, key: Key): Life {
    Life(key in q.dirty, key in q.processing, if key in q.delayed then Some(q.delayed[key]) else None, Retries(q, key))
  }

  function Earlier(deadline: Option<real>, other: real): real {
    if deadline.Some? && deadline.value <= other then deadline.value else other
  }

  /** A delay for a key that is not wanted yet: the earlier deadline counts, no delay is an add. */
  function Postponed(life: Life, delay: real, now: real): Life {
    if life.wanted then life
    else if delay == 0.0 then life.(wanted := true, deadline := None)
    else life.(deadline := Some(Earlier(life.deadline, now + delay)))
  }

  /** What a choice does to one key. */
  function LifeAfter(w: World, c: Choice, key: Key): Life {
    var life, open := LifeOf(w.q, key), !w.q.closed;
    match c
    case Tick(_) => life
    case Request(k) => if k == key && open then life.(wanted := true, deadline := None) else life
    case Schedule(k, delay) => if k == key && open then Postponed(life, delay, w.now) else life
    case Backoff(k, delay) =>
      if k == key && open then Postponed(life.(failures := life.failures + 1), delay, w.now) else life
    case Forget(k) => if k == key then life.(failures := 0) else life
    case Fire(k) => if k == key then life.(wanted := true, deadline := None) else life
    case Get(_) => if w.q.ready != [] && w.q.ready[0] == key then life.(wanted := false, held := true) else life
    case Done(i) => if i < |w.workers| && w.workers[i] == Working(key) then life.(held := false) else life
    case Cancel(i) => if i < |w.workers| && w.workers[i] == Working(key) then life.(held := false) else life
    case Shutdown(immediate) =>
      Life(life.wanted && !immediate && !w.q.immediate, life.held, None, 0)
  }

  lemma AddLife(q: Queued, key: Key, other: Key)
    requires Consistent(q) && !q.closed
    ensures LifeOf(OnAdd(q, other), key)
            == if key == other then LifeOf(q, key).(wanted := true, deadline := None) else LifeOf(q, key)
  {
  }

  lemma AddAfterLife(q: Queued, key: Key, other: Key, delay: real, now: real)
    requires Consistent(q) && !q.closed && delay >= 0.0
    ensures LifeOf(OnAddAfter(q, other, delay, now), key)
            == if key == other then Postponed(LifeOf(q, key), delay, now) else LifeOf(q, key)
  {
    AddLife(q, key, other);
  }

  lemma RetryLife(q: Queued, key: Key, other: Key, delay: real, now: real)
    requires Consistent(q) && !q.closed && delay >= 0.0
    ensures var life := LifeOf(q, key);
            LifeOf(OnRetry(q, other, delay, now), key)
            == if key == other then Postponed(life.(failures := life.failures + 1), delay, now) else life
  {
    var counted := q.(retries := q.retries[other := Retries(q, other) + 1]);
    RetriesConsistent(q, counted.retries);
    AddAfterLife(counted, key, other, delay, now);
  }

  lemma TimerLife(q: Queued, key: Key, other: Key)
    requires Consistent(q) && other in q.delayed
    ensures LifeOf(OnTimer(q, other), key)
            == if key == other then LifeOf(q, key).(wanted := true, deadline := None) else LifeOf(q, key)
  {
  }

  lemma CalledLife(w: World, c: Choice, key: Key)
    requires Consistent(w.q) && Call(c) && Enabled(w, c)
    ensures LifeOf(Called(w, c), key) == LifeAfter(w, c, key)
  {
    match c
    case Request(k) => if !w.q.closed { AddLife(w.q, key, k); }
    case Schedule(k, delay) => if !w.q.closed { AddAfterLife(w.q, key, k, delay, w.now); }
    case Backoff(k, delay) => if !w.q.closed { RetryLife(w.q, key, k, delay, w.now); }
    case Forget(_) =>
    case Fire(k) => TimerLife(w.q, key, k);
    case Shutdown(_) =>
  }

  lemma DoneLife(w: World, i: nat, next: Worker, key: Key)
    requires i < |w.workers| && w.workers[i].Working? && w.workers[i].key in w.q.processing
    ensures LifeOf(StepDone(w, i, next).q, key)
            == if w.workers[i].key == key then LifeOf(w.q, key).(held := false) else LifeOf(w.q, key)
  {
    LetGo(w.q, w.workers[i].key, key);
  }

  lemma LetGo(q: Queued, other: Key, key: Key)
    requires other in q.processing
    ensures LifeOf(OnDone(q, other).value, key)
            == if other == key then LifeOf(q, key).(held := false) else LifeOf(q, key)
  {
  }

  lemma GetLife(w: World, i: nat, key: Key)
    requires Inv(w) && i < |w.workers|
    ensures LifeOf(StepGet(w, i).q, key) == LifeAfter(w, Get(i), key)
  {
    GetConsistent(w.q);
  }

  lemma MoveLife(w: World, c: Choice, key: Key)
    requires Inv(w) && !Call(c) && Enabled(w, c)
    ensures LifeOf(Step(w, c).q, key) == LifeAfter(w, c, key)
  {
    match c
    case Tick(_) =>
    case Get(i) => GetLife(w, i, key);
    case Done(i) => DoneLife(w, i, AtGet, key);
    case Cancel(i) => if w.workers[i].Working? { DoneLife(w, i, Exited, key); }
  }

  /** Every choice moves every key as its own state says. */
  lemma LifeExact(w: World, c: Choice, key: Key)
    requires Inv(w)
    ensures LifeOf(Step(w, c).q, key) == if Enabled(w, c) then LifeAfter(w, c, key) else LifeOf(w.q, key)
  {
    if Enabled(w, c) {
      if Call(c) { CalledLife(w, c, key); } else { MoveLife(w, c, key); }
    }
  }

  // ----- when a delayed key is due -----

  /** The choice neither wants nor delays nor releases the key, and keeps the queue open. */
  predicate LeavesAlone(c: Choice, key: Key) {
    match c
    case Request(k) => k != key
    case Schedule(k, _) => k != key
    case Backoff(k, _) => k != key
    case Fire(k) => k != key
    case Shutdown(_) => false
    case _ => true
  }

  lemma {:induction false} DeadlineStays(w: World, choices: seq<Choice>, key: Key)
    requires Inv(w) && key in w.q.delayed && forall c <- choices :: LeavesAlone(c, key)
    ensures LifeOf(Run(w, choices).q, key).deadline == LifeOf(w.q, key).deadline
    decreases |choices|
  {
    if choices != [] {
      StepKeeps(w, choices[0]);
      assert LeavesAlone(choices[0], key);
      LifeExact(w, choices[0], key);
      DeadlineStays(Step(w, choices[0]), choices[1..], key);
    }
  }

  /** An accepted delay makes the key due at exactly the earlier of its deadline and now + delay,
      and its timer can fire from then on and not before. */
  lemma DueExactly(w: World, key: Key, delay: real, choices: seq<Choice>)
    requires Inv(w) && !w.q.closed && key !in w.q.dirty && delay > 0.0 && forall c <- choices :: LeavesAlone(c, key)
    ensures var due, end := Earlier(LifeOf(w.q, key).deadline, w.now + delay),
                            Run(Step(w, Schedule(key, delay)), choices);
            && LifeOf(end.q, key).deadline == Some(due)
            && (Enabled(end, Fire(key)) <==> due <= end.now)
  {
    var after := Step(w, Schedule(key, delay));
    StepKeeps(w, Schedule(key, delay));
    LifeExact(w, Schedule(key, delay), key);
    DeadlineStays(after, choices, key);
  }

  // ----- how many failures a backoff counts -----

  /** One more for a backoff, none after a forget. */
  function Failed(c: Choice, key: Key, n: nat): nat {
    match c
    case Backoff(k, delay) => if k == key && delay >= 0.0 then n + 1 else n
    case Forget(k) => if k == key then 0 else n
    case _ => n
  }

  /** The failures of a key in a run: the backoffs since the last forget. */
  function Failures(choices: seq<Choice>, key: Key, before: nat): nat {
    if choices == [] then before
    else Failed(choices[|choices| - 1], key, Failures(choices[..|choices| - 1], key, before))
  }

  lemma StepFailures(w: World, c: Choice, key: Key)
    requires Inv(w) && !w.q.closed && !c.Shutdown?
    ensures Retries(Step(w, c).q, key) == Failed(c, key, Retries(w.q, key))
  {
    LifeExact(w, c, key);
    assert LifeOf(Step(w, c).q, key).failures == Retries(Step(w, c).q, key);
  }

  lemma {:induction false} RunLast(w: World, choices: seq<Choice>)
    requires choices != []
    ensures Run(w, choices) == Step(Run(w, choices[..|choices| - 1]), choices[|choices| - 1])
    decreases |choices|
  {
    if |choices| > 1 {
      RunLast(Step(w, choices[0]), choices[1..]);
      assert choices[1..][..|choices| - 2] == choices[..|choices| - 1][1..];
    }
  }

  lemma CalledOpen(w: World, c: Choice)
    requires !w.q.closed && Call(c) && !c.Shutdown? && Enabled(w, c)
    ensures !Called(w, c).closed
  {
  }

  lemma StepOpen(w: World, c: Choice)
    requires !w.q.closed && !c.Shutdown?
    ensures !Step(w, c).q.closed
  {
    if Call(c) && Enabled(w, c) { CalledOpen(w, c); }
  }

  lemma {:induction false} StaysOpen(w: World, choices: seq<Choice>)
    requires !w.q.closed && forall c <- choices :: !c.Shutdown?
    ensures !Run(w, choices).q.closed
    decreases |choices|
  {
    if choices != [] {
      StepOpen(w, choices[0]);
      StaysOpen(Step(w, choices[0]), choices[1..]);
    }
  }

  /** The failures that the queue counts are the backoffs since the last forget. */
  lemma {:induction false} FailuresCounted(w: World, choices: seq<Choice>, key: Key)
    requires Inv(w) && !w.q.closed && forall c <- choices :: !c.Shutdown?
    ensures Retries(Run(w, choices).q, key) == Failures(choices, key, Retries(w.q, key))
    decreases |choices|
  {
    if choices != [] {
      var earlier, last := choices[..|choices| - 1], choices[|choices| - 1];
      FailuresCounted(w, earlier, key);
      RunKeeps(w, earlier);
      StaysOpen(w, earlier);
      RunLast(w, choices);
      StepFailures(Run(w, earlier), last, key);
    }
  }

  /** So a queue that has seen n backoffs of a key since it was forgotten answers the next with the
      base delay doubled n times, up to the maximum. */
  lemma NextBackoff(start: World, choices: seq<Choice>, key: Key, base: real, max: real)
    requires Initial(start) && (forall c <- choices :: !c.Shutdown?) && 0.0 < base <= max
    ensures var n := Failures(choices, key, 0);
            Queue.Backoff(base, max, Retries(Run(start, choices).q, key))
            == if Doubled(base, n) < max then Doubled(base, n) else max
  {
    InitialKeeps(start);
    FailuresCounted(start, choices, key);
    BackoffIsMinimum(base, max, Failures(choices, key, 0));
  }

  // ----- the order of service -----

  predicate Serves(w: World, c: Choice) { c.Get? && Enabled(w, c) && w.q.ready != [] }

  lemma CalledOrder(w: World, c: Choice)
    requires Call(c) && Enabled(w, c) && c != Shutdown(true) && (w.q.immediate ==> w.q.ready == [])
    ensures w.q.ready <= Called(w, c).ready
  {
  }

  lemma ReadyGoesOn(q: Queued)
    requires Consistent(q) && q.ready != []
    ensures !q.immediate
  {
    assert q.ready[0] in q.ready;
  }

  /** Ready keys keep their order: one that is served leaves at the front, others join behind. */
  lemma OrderKept(w: World, c: Choice)
    requires Inv(w) && c != Shutdown(true)
    ensures (if Serves(w, c) then w.q.ready[1..] else w.q.ready) <= Step(w, c).q.ready
  {
    if w.q.ready != [] { ReadyGoesOn(w.q); }
    if Call(c) && Enabled(w, c) { CalledOrder(w, c); }
  }

  /** How many keys a run hands out. */
  function Handed(w: World, choices: seq<Choice>): nat
    decreases |choices|
  {
    if choices == [] then 0 else (if Serves(w, choices[0]) then 1 else 0) + Handed(Step(w, choices[0]), choices[1..])
  }

  /** A ready key is taken before any that became ready after it: with i keys in front, it is among
      the next i + 1 that are handed out. */
  lemma {:induction false} ServedInTurn(w: World, choices: seq<Choice>, i: nat)
    requires Inv(w) && i < |w.q.ready| && i < Handed(w, choices) && Shutdown(true) !in choices
    ensures Takes(w, choices, w.q.ready[i]) > 0
    decreases |choices|
  {
    var c, key := choices[0], w.q.ready[i];
    StepKeeps(w, c);
    OrderKept(w, c);
    if !TakesNow(w, c, key) {
      var next := Step(w, c);
      var j := if Serves(w, c) then i - 1 else i;
      assert next.q.ready[j] == key;
      ServedInTurn(next, choices[1..], j);
    }
  }
}
