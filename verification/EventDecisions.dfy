/** When an event is sent, told by what was sent before: unless it repeats a recent one or would
    make a window too full, and for no other reason. */
module EventDecisions {
  import opened Events
  import opened EventBounds

  /** An event of the same key was sent less than the interval ago. */
  predicate RecentlySent(accepted: seq<Emit>, e: Emit, interval: real) {
    exists i :: 0 <= i < |accepted| && accepted[i].key == e.key && e.now < accepted[i].now + interval
  }

  /** The window from the i-th sent event to this one would hold more than 20 and 5 per second. */
  predicate Overfills(accepted: seq<Emit>, e: Emit, i: nat)
    requires i < |accepted|
  {
    (|accepted| - i + 1) as real > 20.0 + 5.0 * (e.now - accepted[i].now)
  }

  predicate Overruns(accepted: seq<Emit>, e: Emit) { exists i: nat | i < |accepted| :: Overfills(accepted, e, i) }

  // ----- the bucket is as full as the windows allow -----

  /** The budget since the i-th sent event is used up. */
  predicate UsedUp(h: History, i: nat)
    requires i < |h.accepted|
  {
    Since(h.accepted, i) + h.recorder.tokens == 19.0 + 5.0 * (h.recorder.last - h.accepted[i].now)
  }

  predicate Tight(h: History) { h.recorder.tokens == 20.0 || exists i: nat | i < |h.accepted| :: UsedUp(h, i) }

  lemma TightRefilled(h: History, now: real)
    requires Tight(h) && h.recorder.last <= now
    ensures Tight(h.(recorder := h.recorder.(tokens := Refilled(h.recorder, now), last := now)))
  {
    var after := h.(recorder := h.recorder.(tokens := Refilled(h.recorder, now), last := now));
    if after.recorder.tokens != 20.0 {
      var i: nat :| i < |h.accepted| && UsedUp(h, i);
      assert UsedUp(after, i);
    }
  }

  lemma TightAccepted(h: History, e: Emit, recorder: Recorder)
    requires recorder.tokens == Refilled(h.recorder, e.now) - 1.0 && recorder.last == e.now && h.recorder.last <= e.now
    requires Tight(h)
    ensures Tight(History(recorder, h.accepted + [e]))
  {
    TightRefilled(h, e.now);
    var after := History(recorder, h.accepted + [e]);
    var refilled := h.(recorder := h.recorder.(tokens := Refilled(h.recorder, e.now), last := e.now));
    if refilled.recorder.tokens == 20.0 {
      assert UsedUp(after, |h.accepted|);
    } else {
      var i: nat :| i < |h.accepted| && UsedUp(refilled, i);
      assert Since(after.accepted, i) == Since(h.accepted, i) + 1.0;
      assert UsedUp(after, i);
    }
  }

  lemma TightFed(cfg: Settings, h: History, e: Emit)
    requires Tight(h) && h.recorder.last <= e.now
    ensures Tight(Fed(cfg, h, e))
  {
    TightRefilled(h, e.now);
    EvictedTokens(Reserved(h.recorder, e), cfg.maxKeys);
    TightAccepted(h, e, Evicted(Reserved(h.recorder, e), cfg.maxKeys));
  }

  lemma {:induction false} RunTight(cfg: Settings, start: real, emits: seq<Emit>)
    requires cfg.Valid() && Rising(start, emits)
    ensures Tight(Run(cfg, start, emits))
  {
    if emits != [] {
      var n := |emits| - 1;
      RisingPrefix(start, emits, n);
      RunTight(cfg, start, emits[..n]);
      RunKeeps(cfg, start, emits[..n]);
      assert Before(start, emits, n) <= emits[n].now && Before(start, emits[..n], n) == Before(start, emits, n);
      TightFed(cfg, Run(cfg, start, emits[..n]), emits[n]);
    }
  }

  /** There is no token exactly when some window would be too full. */
  lemma ThrottleExact(cfg: Settings, h: History, e: Emit)
    requires Inv(cfg, h) && Tight(h) && h.recorder.last <= e.now
    ensures Refilled(h.recorder, e.now) < 1.0 <==> Overruns(h.accepted, e)
  {
    if Refilled(h.recorder, e.now) < 1.0 {
      var i: nat :| i < |h.accepted| && UsedUp(h, i);
      assert Overfills(h.accepted, e, i);
    }
    if i: nat :| i < |h.accepted| && Overfills(h.accepted, e, i) {
      assert Since(h.accepted, i) + h.recorder.tokens <= 19.0 + 5.0 * (h.recorder.last - h.accepted[i].now);
    }
  }

  // ----- the table -----

  lemma SuppressedSent(cfg: Settings, h: History, e: Emit)
    requires Inv(cfg, h) && Suppressed(cfg, h.recorder, e)
    ensures RecentlySent(h.accepted, e, cfg.interval)
  {
    assert Remembered(cfg, h, e.key);
  }

  /** A large table suppresses every recent repeat that the budget lets through. */
  lemma SentSuppressed(cfg: Settings, h: History, e: Emit)
    requires Inv(cfg, h) && h.recorder.last <= e.now && cfg.maxKeys as real >= 18.0 + 5.0 * cfg.interval
    requires RecentlySent(h.accepted, e, cfg.interval) && Refilled(h.recorder, e.now) >= 1.0
    ensures Suppressed(cfg, h.recorder, e)
  {
    var j: nat :| j < |h.accepted| && h.accepted[j].key == e.key && e.now < h.accepted[j].now + cfg.interval;
    LastIsLast(h.accepted, j);
    var i := Last(h.accepted, e.key);
    assert h.accepted[j].now <= h.accepted[i].now;
    assert Remembered(cfg, h, e.key);
    BudgetStep(h, e, Refilled(h.recorder, e.now));
  }

  /** The event is sent after the emits before it. */
  ghost predicate Sent(cfg: Settings, start: real, emits: seq<Emit>, e: Emit) {
    Run(cfg, start, emits + [e]).accepted == Run(cfg, start, emits).accepted + [e]
  }

  lemma SentIs(cfg: Settings, start: real, emits: seq<Emit>, e: Emit)
    ensures Sent(cfg, start, emits, e) <==> OnEmit(cfg, Run(cfg, start, emits).recorder, e).1
  {
    assert (emits + [e])[..|emits|] == emits;
    var h := Run(cfg, start, emits);
    assert Run(cfg, start, emits + [e]) == Fed(cfg, h, e);
    assert |h.accepted| != |h.accepted + [e]|;
  }

  /** With any table, an event that is not sent repeats a recent one or would overrun, and one that
      would overrun is not sent. With a large table, both are exactly the reasons. */
  lemma DecisionExact(cfg: Settings, start: real, emits: seq<Emit>, e: Emit)
    requires cfg.Valid() && Rising(start, emits + [e])
    ensures var accepted := Run(cfg, start, emits).accepted;
            && (!Sent(cfg, start, emits, e) ==> RecentlySent(accepted, e, cfg.interval) || Overruns(accepted, e))
            && (Overruns(accepted, e) ==> !Sent(cfg, start, emits, e))
            && (cfg.maxKeys as real >= 18.0 + 5.0 * cfg.interval ==>
                  (Sent(cfg, start, emits, e)
                  <==> !RecentlySent(accepted, e, cfg.interval) && !Overruns(accepted, e)))
  {
    var all, n := emits + [e], |emits|;
    assert all[..n] == emits && all[n] == e;
    RisingPrefix(start, all, n);
    RunKeeps(cfg, start, emits);
    RunTight(cfg, start, emits);
    assert Before(start, all, n) <= e.now && Before(start, emits, n) == Before(start, all, n);
    var h := Run(cfg, start, emits);
    SentIs(cfg, start, emits, e);
    ThrottleExact(cfg, h, e);
    if Suppressed(cfg, h.recorder, e) { SuppressedSent(cfg, h, e); }
    if RecentlySent(h.accepted, e, cfg.interval) && Refilled(h.recorder, e.now) >= 1.0
       && cfg.maxKeys as real >= 18.0 + 5.0 * cfg.interval {
      SentSuppressed(cfg, h, e);
    }
  }
}
