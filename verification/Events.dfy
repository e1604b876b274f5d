/** The event recorder: a token bucket over a bounded table of recent emits. */
module Events {
  import opened Sequences

  /** Server, namespace, UID, type, reason and action of an event. */
  type Key = seq<string>

  datatype Settings = Settings(interval: real, maxKeys: nat)
  {
    predicate Valid() { interval > 0.0 && maxKeys >= 1 }
  }

  /** `order` lists the keys of `recent`, the least recently accepted first. */
  datatype Recorder = Recorder(tokens: real, last: real, recent: map<Key, real>, order: seq<Key>)

  datatype Emit = Emit(key: Key, now: real)

  function Fresh(now: real): Recorder { Recorder(20.0, now, map[], []) }

  /** At most 20 tokens, 5 more every second. */
  function Refilled(r: Recorder, now: real): real {
    var tokens := r.tokens + (now - r.last) * 5.0;
    if tokens < 20.0 then tokens else 20.0
  }

  function Suppressed(cfg: Settings, r: Recorder, e: Emit): bool {
    e.key in r.recent && e.now < r.recent[e.key] + cfg.interval
  }

  function Reserved(r: Recorder, e: Emit): Recorder {
    Recorder(Refilled(r, e.now) - 1.0, e.now, r.recent[e.key := e.now], Without(r.order, e.key) + [e.key])
  }

  function Evicted(r: Recorder, maxKeys: nat): Recorder
    decreases |r.order|
  {
    if |r.order| > maxKeys then Evicted(r.(recent := r.recent - {r.order[0]}, order := r.order[1..]), maxKeys) else r
  }

  /** Whether an event is sent, and what the recorder remembers. */
  function OnEmit(cfg: Settings, r: Recorder, e: Emit): (Recorder, bool) {
    if Suppressed(cfg, r, e) then (r, false)
    else if Refilled(r, e.now) < 1.0 then (r.(tokens := Refilled(r, e.now), last := e.now), false)
    else (Evicted(Reserved(r, e), cfg.maxKeys), true)
  }

  ghost predicate Kept(cfg: Settings, r: Recorder) {
    && 0.0 <= r.tokens <= 20.0
    && NoRepeats(r.order) && |r.order| <= cfg.maxKeys && forall k :: k in r.order <==> k in r.recent
  }

  lemma EvictedOnce(r: Recorder, maxKeys: nat)
    requires |r.order| <= maxKeys + 1
    ensures Evicted(r, maxKeys) == if |r.order| > maxKeys
            then r.(recent := r.recent - {r.order[0]}, order := r.order[1..]) else r
  {
    if |r.order| > maxKeys {
      var next := r.(recent := r.recent - {r.order[0]}, order := r.order[1..]);
      assert Evicted(next, maxKeys) == next;
    }
  }

  lemma EvictedKept(cfg: Settings, r: Recorder)
    requires Kept(cfg.(maxKeys := cfg.maxKeys + 1), r)
    ensures Kept(cfg, Evicted(r, cfg.maxKeys))
  {
    EvictedOnce(r, cfg.maxKeys);
  }

  /** Accepting keeps the table consistent and evicts at most one key, the oldest. */
  lemma ReservedKept(cfg: Settings, r: Recorder, e: Emit)
    requires Kept(cfg, r) && Refilled(r, e.now) >= 1.0
    ensures Kept(cfg.(maxKeys := cfg.maxKeys + 1), Reserved(r, e)) && Kept(cfg, Evicted(Reserved(r, e), cfg.maxKeys))
  {
    WithoutElement(r.order, e.key);
    AppendNew(Without(r.order, e.key), e.key);
    EvictedKept(cfg, Reserved(r, e));
  }

  lemma EmitKept(cfg: Settings, r: Recorder, e: Emit)
    requires Kept(cfg, r) && r.last <= e.now
    ensures Kept(cfg, OnEmit(cfg, r, e).0)
  {
    if Refilled(r, e.now) >= 1.0 { ReservedKept(cfg, r, e); }
  }

  class EventRecorder {
    const cfg: Settings
    var tokens: real
    var lastToken: real
    var recent: map<Key, real>
    var order: seq<Key>

    ghost function Fields(): Recorder reads this { Recorder(tokens, lastToken, recent, order) }

    ghost predicate Valid() reads this { cfg.Valid() && Kept(cfg, Fields()) }

    constructor (cfg: Settings, now: real)
      requires cfg.Valid()
      ensures Valid() && this.cfg == cfg && Fields() == Fresh(now)
    {
      this.cfg := cfg;
      tokens, lastToken, recent, order := 20.0, now, map[], [];
    }

    /** The decision to send, before the request; a failed request keeps the reservation. */
    method Accept(key: Key, now: real) returns (accepted: bool)
      requires Valid() && lastToken <= now
      modifies this
      ensures Valid() && (Fields(), accepted) == OnEmit(cfg, old(Fields()), Emit(key, now))
    {
      EmitKept(cfg, Fields(), Emit(key, now));
      if key in recent && now < recent[key] + cfg.interval { return false; }
      tokens := if tokens + (now - lastToken) * 5.0 < 20.0 then tokens + (now - lastToken) * 5.0 else 20.0;
      lastToken := now;
      if tokens < 1.0 { return false; }
      tokens := tokens - 1.0;
      recent := recent[key := now];
      order := Without(order, key) + [key];
      while |order| > cfg.maxKeys
        invariant Evicted(Fields(), cfg.maxKeys) == Evicted(Reserved(old(Fields()), Emit(key, now)), cfg.maxKeys)
        decreases |order|
      {
        recent, order := recent - {order[0]}, order[1..];
      }
      accepted := true;
    }
  }
}
