/** How the token bucket and the bounded table meet: the table never forgets a live reservation,
    and repeats are really suppressed, exactly from a certain size on. */
module EventBounds {
  import opened Sequences
  import opened Events

  /** A recorder and everything it accepted so far. */
  datatype History = History(recorder: Recorder, accepted: seq<Emit>)

  function Fed(cfg: Settings, h: History, e: Emit): History {
    var (r, accepted) := OnEmit(cfg, h.recorder, e);
    History(r, if accepted then h.accepted + [e] else h.accepted)
  }

  function Run(cfg: Settings, start: real, emits: seq<Emit>): History {
    if emits == [] then History(Fresh(start), [])
    else Fed(cfg, Run(cfg, start, emits[..|emits| - 1]), emits[|emits| - 1])
  }

  /** The clock never goes back. */
  predicate Rising(start: real, emits: seq<Emit>) {
    forall i {:trigger Before(start, emits, i)} :: 0 <= i < |emits| ==> Before(start, emits, i) <= emits[i].now
  }

  /** The time of the emit before the i-th. */
  function Before(start: real, emits: seq<Emit>, i: nat): real
    requires i <= |emits|
  {
    if i == 0 then start else emits[i - 1].now
  }

  /** Index of the last accepted emit of a key, -1 if there is none. */
  function Last(accepted: seq<Emit>, key: Key): (i: int)
    ensures -1 <= i < |accepted|
    ensures i >= 0 ==> accepted[i].key == key
  {
    if accepted == [] then -1
    else if accepted[|accepted| - 1].key == key then |accepted| - 1
    else Last(accepted[..|accepted| - 1], key)
  }

  lemma {:induction false} LastIsLast(accepted: seq<Emit>, i: nat)
    requires i < |accepted|
    ensures i <= Last(accepted, accepted[i].key)
  {
    if i < |accepted| - 1 { LastIsLast(accepted[..|accepted| - 1], i); }
  }

  function Since(accepted: seq<Emit>, i: int): real requires i <= |accepted| { (|accepted| - 1 - i) as real }

  /** What the bucket left over the tokens granted since an accepted emit. */
  ghost predicate Budgeted(h: History) {
    forall i :: 0 <= i < |h.accepted| ==>
      && h.accepted[i].now <= h.recorder.last
      && Since(h.accepted, i) + h.recorder.tokens <= 19.0 + 5.0 * (h.recorder.last - h.accepted[i].now)
  }

  /** Any window that starts and ends with an accepted emit holds at most 20 + 5 per second. */
  ghost predicate Windowed(accepted: seq<Emit>) {
    forall i, j :: 0 <= i <= j < |accepted| ==>
      accepted[i].now <= accepted[j].now && (j - i + 1) as real <= 20.0 + 5.0 * (accepted[j].now - accepted[i].now)
  }

  /** The table remembers the last emit of a key unless as many others followed as it has room for. */
  ghost predicate Remembers(cfg: Settings, h: History) {
    forall k :: Remembered(cfg, h, k)
  }

  predicate Remembered(cfg: Settings, h: History, k: Key) {
    var i := Last(h.accepted, k);
    if k in h.recorder.recent then i >= 0 && h.recorder.recent[k] == h.accepted[i].now
    else i >= 0 ==> |h.accepted| - 1 - i >= cfg.maxKeys
  }

  /** No more keys stand behind a key than were accepted after it. */
  ghost predicate Ranked(h: History) {
    forall p ::
      0 <= p < |h.recorder.order| ==> |h.recorder.order| - p <= |h.accepted| - Last(h.accepted, h.recorder.order[p])
  }

  ghost predicate Inv(cfg: Settings, h: History) {
    Kept(cfg, h.recorder) && Budgeted(h) && Windowed(h.accepted) && Remembers(cfg, h) && Ranked(h)
  }

  lemma {:induction false} WithoutAt<T>(s: seq<T>, x: T, p: nat) returns (q: nat)
    requires p < |Without(s, x)|
    ensures q < |s| && s[q] == Without(s, x)[p] && |Without(s, x)| - p <= |s| - q
  {
    if s[0] == x { q := WithoutAt(s[1..], x, p); q := q + 1; }
    else if p == 0 { q := 0; }
    else { q := WithoutAt(s[1..], x, p - 1); q := q + 1; }
  }

  /** Reserving, before anything is evicted. */
  lemma ReserveRanked(h: History, e: Emit)
    requires Ranked(h) && NoRepeats(h.recorder.order)
    ensures Ranked(History(Reserved(h.recorder, e), h.accepted + [e]))
  {
    WithoutElement(h.recorder.order, e.key);
    var order, after := h.recorder.order, Reserved(h.recorder, e).order;
    forall p | 0 <= p < |after| ensures |after| - p <= |h.accepted| + 1 - Last(h.accepted + [e], after[p]) {
      if p < |after| - 1 { assert after[p] in Without(order, e.key); var q := WithoutAt(order, e.key, p); }
    }
  }

  lemma ReserveRemembers(cfg: Settings, h: History, e: Emit)
    requires Remembers(cfg, h)
    ensures Remembers(cfg, History(Reserved(h.recorder, e), h.accepted + [e]))
  {
    forall k ensures Remembered(cfg, History(Reserved(h.recorder, e), h.accepted + [e]), k) {
      assert Remembered(cfg, h, k);
    }
  }

  lemma EvictRemembers(cfg: Settings, h: History, recorder: Recorder)
    requires Remembers(cfg, h) && Ranked(h) && |h.recorder.order| > cfg.maxKeys
    requires recorder.recent == h.recorder.recent - {h.recorder.order[0]}
    ensures Remembers(cfg, History(recorder, h.accepted))
  {
    forall k ensures Remembered(cfg, History(recorder, h.accepted), k) {
      assert Remembered(cfg, h, k);
      assert k == h.recorder.order[0] ==> |h.recorder.order| <= |h.accepted| - Last(h.accepted, k);
    }
  }

  lemma BudgetStep(h: History, e: Emit, tokens: real)
    requires Budgeted(h) && h.recorder.last <= e.now && 0.0 <= tokens <= Refilled(h.recorder, e.now)
    ensures forall i :: 0 <= i < |h.accepted| ==>
              && h.accepted[i].now <= e.now
              && Since(h.accepted, i) + tokens <= 19.0 + 5.0 * (e.now - h.accepted[i].now)
  {
  }

  /** Accepting uses a token up, so the emits accepted before stay within their budgets. */
  lemma AcceptBudgeted(h: History, e: Emit, recorder: Recorder)
    requires Budgeted(h) && Windowed(h.accepted) && h.recorder.last <= e.now && Refilled(h.recorder, e.now) >= 1.0
    requires recorder.tokens == Refilled(h.recorder, e.now) - 1.0 && recorder.last == e.now
    ensures Budgeted(History(recorder, h.accepted + [e])) && Windowed(h.accepted + [e])
  {
    var after := h.accepted + [e];
    BudgetStep(h, e, Refilled(h.recorder, e.now));
    forall i | 0 <= i < |after|
      ensures after[i].now <= e.now && Since(after, i) + recorder.tokens <= 19.0 + 5.0 * (e.now - after[i].now)
    {
      if i < |h.accepted| { assert Since(after, i) == Since(h.accepted, i) + 1.0; }
    }
    forall i, j | 0 <= i <= j < |after|
      ensures after[i].now <= after[j].now && (j - i + 1) as real <= 20.0 + 5.0 * (after[j].now - after[i].now)
    {
      if j == |h.accepted| { assert (j - i + 1) as real == Since(after, i) + 1.0; }
    }
  }

  lemma AcceptKeeps(cfg: Settings, h: History, e: Emit)
    requires cfg.Valid() && Inv(cfg, h) && h.recorder.last <= e.now
    requires !Suppressed(cfg, h.recorder, e) && Refilled(h.recorder, e.now) >= 1.0
    ensures Inv(cfg, Fed(cfg, h, e)) && Fed(cfg, h, e).accepted == h.accepted + [e]
  {
    var after := Fed(cfg, h, e);
    var reserved := History(Reserved(h.recorder, e), h.accepted + [e]);
    ReservedKept(cfg, h.recorder, e);
    EvictedOnce(reserved.recorder, cfg.maxKeys);
    AcceptBudgeted(h, e, after.recorder);
    ReserveRanked(h, e);
    ReserveRemembers(cfg, h, e);
    if |reserved.recorder.order| > cfg.maxKeys {
      EvictRemembers(cfg, reserved, after.recorder);
    }
  }

  lemma ThrottleKeeps(cfg: Settings, h: History, e: Emit, recorder: Recorder)
    requires Inv(cfg, h) && h.recorder.last <= e.now
    requires recorder == h.recorder.(tokens := Refilled(h.recorder, e.now), last := e.now)
    ensures Inv(cfg, History(recorder, h.accepted))
  {
    BudgetStep(h, e, recorder.tokens);
    forall k ensures Remembered(cfg, History(recorder, h.accepted), k) { assert Remembered(cfg, h, k); }
  }

  lemma FedKeeps(cfg: Settings, h: History, e: Emit)
    requires cfg.Valid() && Inv(cfg, h) && h.recorder.last <= e.now
    ensures Inv(cfg, Fed(cfg, h, e)) && Fed(cfg, h, e).recorder.last <= e.now
  {
    if Suppressed(cfg, h.recorder, e) {
    } else if Refilled(h.recorder, e.now) < 1.0 {
      ThrottleKeeps(cfg, h, e, Fed(cfg, h, e).recorder);
    } else {
      AcceptKeeps(cfg, h, e);
      EvictedOnce(Reserved(h.recorder, e), cfg.maxKeys);
    }
  }

  lemma RisingPrefix(start: real, emits: seq<Emit>, n: nat)
    requires Rising(start, emits) && n <= |emits|
    ensures Rising(start, emits[..n])
  {
    forall i | 0 <= i < n ensures Before(start, emits[..n], i) <= emits[..n][i].now {
      assert Before(start, emits, i) <= emits[i].now;
    }
  }

  lemma {:induction false} RunKeeps(cfg: Settings, start: real, emits: seq<Emit>)
    requires cfg.Valid() && Rising(start, emits)
    ensures Inv(cfg, Run(cfg, start, emits))
    ensures Run(cfg, start, emits).recorder.last <= Before(start, emits, |emits|)
  {
    if emits != [] {
      var n := |emits| - 1;
      RisingPrefix(start, emits, n);
      RunKeeps(cfg, start, emits[..n]);
      assert Before(start, emits, n) <= emits[n].now && Before(start, emits[..n], n) == Before(start, emits, n);
      FedKeeps(cfg, Run(cfg, start, emits[..n]), emits[n]);
    }
  }

  /** Traffic: every window of accepted emits, of any run and with any table, is bounded. */
  lemma WindowBound(cfg: Settings, start: real, emits: seq<Emit>, i: nat, j: nat)
    requires cfg.Valid() && Rising(start, emits) && i <= j < |Run(cfg, start, emits).accepted|
    ensures var accepted := Run(cfg, start, emits).accepted;
            accepted[i].now <= accepted[j].now
            && (j - i + 1) as real <= 20.0 + 5.0 * (accepted[j].now - accepted[i].now)
  {
    RunKeeps(cfg, start, emits);
  }

  // ----- large tables -----

  /** Two accepted emits of one key are at least the interval apart. */
  ghost predicate Spaced(accepted: seq<Emit>, interval: real) {
    forall i, j ::
      0 <= i < j < |accepted| && accepted[i].key == accepted[j].key ==> accepted[i].now + interval <= accepted[j].now
  }

  lemma AcceptSpaced(cfg: Settings, h: History, e: Emit)
    requires Inv(cfg, h) && h.recorder.last <= e.now && Spaced(h.accepted, cfg.interval)
    requires !Suppressed(cfg, h.recorder, e) && Refilled(h.recorder, e.now) >= 1.0
    requires cfg.maxKeys as real >= 18.0 + 5.0 * cfg.interval
    ensures Spaced(h.accepted + [e], cfg.interval)
  {
    var i := Last(h.accepted, e.key);
    if i >= 0 {
      assert Remembered(cfg, h, e.key);
      BudgetStep(h, e, Refilled(h.recorder, e.now));
      assert h.accepted[i].now + cfg.interval <= e.now;
    }
    forall j | 0 <= j < |h.accepted| && h.accepted[j].key == e.key ensures h.accepted[j].now + cfg.interval <= e.now {
      LastIsLast(h.accepted, j);
    }
  }

  lemma {:induction false} RunSpaced(cfg: Settings, start: real, emits: seq<Emit>)
    requires cfg.Valid() && Rising(start, emits) && cfg.maxKeys as real >= 18.0 + 5.0 * cfg.interval
    ensures Spaced(Run(cfg, start, emits).accepted, cfg.interval)
  {
    if emits != [] {
      var n := |emits| - 1;
      RisingPrefix(start, emits, n);
      RunSpaced(cfg, start, emits[..n]);
      RunKeeps(cfg, start, emits[..n]);
      var h := Run(cfg, start, emits[..n]);
      assert Before(start, emits, n) <= emits[n].now && Before(start, emits[..n], n) == Before(start, emits, n);
      if !Suppressed(cfg, h.recorder, emits[n]) && Refilled(h.recorder, emits[n].now) >= 1.0 {
        AcceptSpaced(cfg, h, emits[n]);
      }
    }
  }

  /** Whether the table still holds every reservation younger than the interval. */
  ghost predicate HoldsLive(cfg: Settings, h: History) {
    forall k :: var i := Last(h.accepted, k);
      i >= 0 && h.recorder.last < h.accepted[i].now + cfg.interval ==> k in h.recorder.recent
  }

  lemma RunHoldsLive(cfg: Settings, start: real, emits: seq<Emit>)
    requires cfg.Valid() && Rising(start, emits) && cfg.maxKeys as real >= 19.0 + 5.0 * cfg.interval
    ensures HoldsLive(cfg, Run(cfg, start, emits))
  {
    RunKeeps(cfg, start, emits);
    var h := Run(cfg, start, emits);
    forall k
      ensures var i := Last(h.accepted, k); i >= 0 && h.recorder.last < h.accepted[i].now + cfg.interval ==>
                k in h.recorder.recent
    {
      assert Remembered(cfg, h, k);
    }
  }

  // ----- small tables: a flood of other keys -----

  /** Distinct keys. */
  function Name(i: nat): (k: Key) ensures |k| == i { seq(i, _ => "") }

  /** The earliest time at which the bucket has granted n tokens. */
  function At(n: nat): real { if n <= 20 then 0.0 else (n - 20) as real / 5.0 }

  function Burst(n: nat): (emits: seq<Emit>)
    ensures |emits| == n
  {
    seq(n, i requires 0 <= i < n => Emit(Name(i), At(i + 1)))
  }

  function Names(from: nat, to: nat): (keys: seq<Key>)
    requires from <= to
    ensures |keys| == to - from
  {
    seq(to - from, i requires 0 <= i < to - from => Name(from + i))
  }

  lemma BurstAt(n: nat)
    ensures forall i :: 0 <= i < n ==> Burst(n)[i] == Emit(Name(i), At(i + 1))
  {
  }

  lemma NamesAt(from: nat, to: nat)
    requires from <= to
    ensures forall i :: 0 <= i < to - from ==> Names(from, to)[i] == Name(from + i)
    ensures forall k <- Names(from, to) :: from <= |k| < to
  {
    forall k <- Names(from, to) ensures from <= |k| < to {
      var i :| 0 <= i < to - from && Names(from, to)[i] == k;
      assert Names(from, to)[i] == Name(from + i);
    }
  }

  /** After the flood: everything was accepted, and the table holds the last keys. */
  ghost predicate Flooded(cfg: Settings, n: nat, h: History) {
    && h.accepted == Burst(n)
    && h.recorder.tokens == (if n <= 20 then (20 - n) as real else 0.0) && h.recorder.last == At(n)
    && h.recorder.order == Names(if n <= cfg.maxKeys then 0 else n - cfg.maxKeys, n)
  }

  lemma {:induction false} NotWithout<T>(s: seq<T>, x: T)
    requires x !in s
    ensures Without(s, x) == s
  {
    if s != [] { NotWithout(s[1..], x); }
  }

  lemma BurstRises(n: nat)
    ensures Rising(0.0, Burst(n))
  {
    BurstAt(n);
  }

  lemma FloodTokens(n: nat, r: Recorder)
    requires r.tokens == (if n <= 20 then (20 - n) as real else 0.0) && r.last == At(n)
    ensures Refilled(r, At(n + 1)) == (if n < 20 then (20 - n) as real else 1.0)
  {
    assert (At(n + 1) - At(n)) * 5.0 == if n < 20 then 0.0 else 1.0;
  }

  lemma NamesAppend(from: nat, to: nat)
    requires from <= to
    ensures Names(from, to) + [Name(to)] == Names(from, to + 1) && Name(to) !in Names(from, to)
  {
    NamesAt(from, to);
    NamesAt(from, to + 1);
  }

  lemma NamesTail(from: nat, to: nat)
    requires from < to
    ensures Names(from, to)[1..] == Names(from + 1, to)
  {
    NamesAt(from, to);
    NamesAt(from + 1, to);
  }

  lemma FloodOrder(cfg: Settings, n: nat, r: Recorder)
    requires r.order == Names(if n <= cfg.maxKeys then 0 else n - cfg.maxKeys, n)
    ensures var reserved := Reserved(r, Emit(Name(n), At(n + 1)));
            Evicted(reserved, cfg.maxKeys).order == Names(if n < cfg.maxKeys then 0 else n + 1 - cfg.maxKeys, n + 1)
  {
    var from := if n <= cfg.maxKeys then 0 else n - cfg.maxKeys;
    NamesAppend(from, n);
    NamesTail(from, n + 1);
    NotWithout(r.order, Name(n));
    EvictedOnce(Reserved(r, Emit(Name(n), At(n + 1))), cfg.maxKeys);
  }

  lemma BurstAppend(n: nat)
    ensures Burst(n + 1) == Burst(n) + [Emit(Name(n), At(n + 1))]
  {
    BurstAt(n);
    BurstAt(n + 1);
  }

  lemma FloodAccepted(cfg: Settings, n: nat, h: History)
    requires Kept(cfg, h.recorder) && Flooded(cfg, n, h)
    ensures var e := Emit(Name(n), At(n + 1));
            && Fed(cfg, h, e) == History(Evicted(Reserved(h.recorder, e), cfg.maxKeys), Burst(n + 1))
            && Reserved(h.recorder, e).tokens == (if n < 20 then (19 - n) as real else 0.0)
            && Reserved(h.recorder, e).last == At(n + 1)
  {
    NamesAt(if n <= cfg.maxKeys then 0 else n - cfg.maxKeys, n);
    FloodTokens(n, h.recorder);
    BurstAppend(n);
  }

  lemma FloodStep(cfg: Settings, n: nat, h: History, e: Emit, after: History)
    requires Kept(cfg, h.recorder) && Flooded(cfg, n, h) && e == Emit(Name(n), At(n + 1)) && after == Fed(cfg, h, e)
    ensures Flooded(cfg, n + 1, after)
  {
    FloodAccepted(cfg, n, h);
    FloodOrder(cfg, n, h.recorder);
    var reserved := Reserved(h.recorder, e);
    EvictedTokens(reserved, cfg.maxKeys);
    assert after.recorder.tokens == reserved.tokens && after.recorder.last == At(n + 1);
    assert (19 - n) == 20 - (n + 1);
  }

  lemma {:induction false} EvictedTokens(r: Recorder, maxKeys: nat)
    ensures Evicted(r, maxKeys).tokens == r.tokens && Evicted(r, maxKeys).last == r.last
    decreases |r.order|
  {
    if |r.order| > maxKeys { EvictedTokens(r.(recent := r.recent - {r.order[0]}, order := r.order[1..]), maxKeys); }
  }

  lemma RunKept(cfg: Settings, start: real, emits: seq<Emit>)
    requires cfg.Valid() && Rising(start, emits)
    ensures Kept(cfg, Run(cfg, start, emits).recorder)
  {
    RunKeeps(cfg, start, emits);
  }

  lemma BurstKept(cfg: Settings, n: nat)
    requires cfg.Valid()
    ensures Kept(cfg, Run(cfg, 0.0, Burst(n)).recorder)
  {
    BurstRises(n);
    RunKept(cfg, 0.0, Burst(n));
  }

  lemma BurstNext(cfg: Settings, n: nat)
    ensures Run(cfg, 0.0, Burst(n + 1)) == Fed(cfg, Run(cfg, 0.0, Burst(n)), Emit(Name(n), At(n + 1)))
  {
    BurstAt(n);
    BurstAt(n + 1);
    assert Burst(n + 1)[..n] == Burst(n) && Burst(n + 1)[n] == Emit(Name(n), At(n + 1));
  }

  ghost predicate FloodedBy(cfg: Settings, n: nat) { Flooded(cfg, n, Run(cfg, 0.0, Burst(n))) }

  lemma NothingYet(cfg: Settings)
    ensures FloodedBy(cfg, 0)
  {
    assert Run(cfg, 0.0, []) == History(Fresh(0.0), []);
  }

  lemma FloodNext(cfg: Settings, n: nat)
    requires cfg.Valid() && FloodedBy(cfg, n)
    ensures FloodedBy(cfg, n + 1)
  {
    var h, e := Run(cfg, 0.0, Burst(n)), Emit(Name(n), At(n + 1));
    BurstKept(cfg, n);
    BurstNext(cfg, n);
    FloodStep(cfg, n, h, e, Fed(cfg, h, e));
  }

  lemma FloodUpTo(cfg: Settings, n: nat)
    requires cfg.Valid()
    ensures FloodedBy(cfg, n)
  {
    NothingYet(cfg);
    for m := 0 to n
      invariant FloodedBy(cfg, m)
    {
      FloodNext(cfg, m);
    }
  }

  lemma Flood(cfg: Settings, n: nat)
    requires cfg.Valid()
    ensures Flooded(cfg, n, Run(cfg, 0.0, Burst(n)))
  {
    FloodUpTo(cfg, n);
    assert FloodedBy(cfg, n);
  }

  /** The flood that just pushes the first key out. */
  lemma FirstForgotten(cfg: Settings, n: nat)
    requires cfg.Valid() && n == cfg.maxKeys + 1
    ensures Flooded(cfg, n, Run(cfg, 0.0, Burst(n))) && Name(0) !in Run(cfg, 0.0, Burst(n)).recorder.recent
  {
    Flood(cfg, n);
    BurstKept(cfg, n);
    NamesAt(1, n);
  }

  /** The first key comes back as soon as the bucket allows, and is sent again. */
  lemma SmallTableRepeats(cfg: Settings) returns (emits: seq<Emit>)
    requires cfg.Valid() && (cfg.maxKeys as real) < 18.0 + 5.0 * cfg.interval
    ensures Rising(0.0, emits) && !Spaced(Run(cfg, 0.0, emits).accepted, cfg.interval)
  {
    var n := cfg.maxKeys + 1;
    var again := Emit(Name(0), At(n + 1));
    emits := Burst(n) + [again];
    BurstRises(n);
    BurstAt(n);
    forall i | 0 <= i < |emits| ensures Before(0.0, emits, i) <= emits[i].now {
      assert i < n ==> Before(0.0, emits, i) == Before(0.0, Burst(n), i);
    }
    FirstForgotten(cfg, n);
    var h := Run(cfg, 0.0, Burst(n));
    assert emits[..n] == Burst(n);
    FloodTokens(n, h.recorder);
    var accepted := Run(cfg, 0.0, emits).accepted;
    assert accepted == Burst(n) + [again] && accepted[0].key == accepted[n].key;
  }

  lemma {:induction false} LastInBurst(n: nat)
    requires n > 0
    ensures Last(Burst(n), Name(0)) == 0
  {
    assert Burst(n)[..n - 1] == Burst(n - 1);
    if n > 1 {
      LastInBurst(n - 1);
      assert |Burst(n)[n - 1].key| == n - 1;
    }
  }

  lemma SmallTableForgets(cfg: Settings) returns (emits: seq<Emit>)
    requires cfg.Valid() && (cfg.maxKeys as real) < 19.0 + 5.0 * cfg.interval
    ensures Rising(0.0, emits) && !HoldsLive(cfg, Run(cfg, 0.0, emits))
  {
    var n := cfg.maxKeys + 1;
    emits := Burst(n);
    BurstRises(n);
    FirstForgotten(cfg, n);
    LastInBurst(n);
    assert At(n) < cfg.interval;
  }

  // ----- exactly when -----

  /** Suppression is exact, whatever is emitted and when, if and only if the table has room for
      18 keys and 5 more per second of the interval. */
  lemma SuppressionExact(cfg: Settings)
    requires cfg.Valid()
    ensures (forall start: real, emits: seq<Emit> ::
              Rising(start, emits) ==> Spaced(Run(cfg, start, emits).accepted, cfg.interval))
            <==> cfg.maxKeys as real >= 18.0 + 5.0 * cfg.interval
  {
    if cfg.maxKeys as real >= 18.0 + 5.0 * cfg.interval {
      forall start: real, emits: seq<Emit> | Rising(start, emits)
        ensures Spaced(Run(cfg, start, emits).accepted, cfg.interval)
      {
        RunSpaced(cfg, start, emits);
      }
    } else {
      var emits := SmallTableRepeats(cfg);
    }
  }

  /** No live reservation is ever evicted if and only if there is room for one key more. */
  lemma ReservationsKept(cfg: Settings)
    requires cfg.Valid()
    ensures (forall start: real, emits: seq<Emit> :: Rising(start, emits) ==> HoldsLive(cfg, Run(cfg, start, emits)))
            <==> cfg.maxKeys as real >= 19.0 + 5.0 * cfg.interval
  {
    if cfg.maxKeys as real >= 19.0 + 5.0 * cfg.interval {
      forall start: real, emits: seq<Emit> | Rising(start, emits) ensures HoldsLive(cfg, Run(cfg, start, emits)) {
        RunHoldsLive(cfg, start, emits);
      }
    } else {
      var emits := SmallTableForgets(cfg);
    }
  }
}
