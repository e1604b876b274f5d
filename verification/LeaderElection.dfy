/** One participant of the Lease election: what it does between two awaits.

    `Local` holds the fields of the participant object. The functions say what each
    uninterrupted stretch of code does to those fields; the class `LeaderElection` does the
    same by updating its own fields, and its methods are proved against the functions. */
module LeaderElection {
  import opened Wrappers

  datatype Settings = Settings(identity: string, leaseDuration: int, renewDeadline: real, retryPeriod: real) {
    /** What the constructor accepts. */
    predicate Valid() {
      && 0 < |identity| <= 128
      && 1 <= leaseDuration <= 0x7fff_ffff
      && 0.0 < retryPeriod < renewDeadline < leaseDuration as real
    }
  }

  /** The spec fields that `_observe` compares. The empty holder stands for an absent or empty
      one; a missing or non-integer duration is None; times are opaque wall-clock stamps. */
  datatype Spec = Spec(holder: string, duration: Option<int>, acquireTime: int, renewTime: int,
                       transitions: Option<int>) {
    function TransitionCount(): int { if transitions.Some? then transitions.value else 0 }
  }

  /** The empty uid and version 0 stand for missing metadata. */
  datatype Lease = Lease(uid: string, version: nat, spec: Spec) {
    predicate Identified() { uid != "" && version != 0 }
    function Record(): (string, Spec) { (uid, spec) }
  }

  datatype Local = Local(active: bool, lastRenewed: real, observedAt: real, record: Option<(string, Spec)>,
                         lease: Option<Lease>)

  const INITIAL := Local(false, 0.0, 0.0, None, None)

  datatype Failure = LeadershipLost | InvalidLease | FatalStatus

  datatype GetResponse = Absent | Present(lease: Lease) | GetStatus(code: Option<int>)
  datatype WriteResponse = Accepted(lease: Lease) | WriteStatus(code: Option<int>)

  /** What follows the GET: a conditional write, another try later, or an exception. */
  datatype Decision = Create(spec: Spec) | Update(body: Lease) | TryLater | Raise(failure: Failure)
  /** How one attempt ends. */
  datatype Outcome = Held | NotHeld | Raised(failure: Failure)

  predicate IsLeaderAt(cfg: Settings, s: Local, clock: real) {
    s.active && clock < s.lastRenewed + cfg.renewDeadline
  }

  /** Client errors end the election, except the ones a later attempt can cure. */
  predicate Fatal(code: Option<int>) {
    code.Some? && 400 <= code.value < 500 && code.value !in {404, 408, 409, 429}
  }

  function Observed(s: Local, lease: Lease, clock: real): Local {
    if s.record == Some(lease.Record()) then s.(lease := Some(lease))
    else s.(record := Some(lease.Record()), observedAt := clock, lease := Some(lease))
  }

  /** The time budget of an attempt; None when the renewal deadline has passed. */
  function Budget(cfg: Settings, s: Local, clock: real): Option<real> {
    if !s.active then Some(cfg.retryPeriod)
    else
      var left := s.lastRenewed + cfg.renewDeadline - clock;
      var timeout := if left < cfg.retryPeriod then left else cfg.retryPeriod;
      if timeout <= 0.0 then None else Some(timeout)
  }

  function Claimed(cfg: Settings, spec: Spec, stamp: int): Spec {
    var renewed := spec.(holder := cfg.identity, duration := Some(cfg.leaseDuration), renewTime := stamp);
    if spec.holder == cfg.identity then renewed
    else renewed.(acquireTime := stamp, transitions := Some(spec.TransitionCount() + 1))
  }

  function Released(spec: Spec, stamp: int): Spec {
    spec.(holder := "", duration := Some(1), renewTime := stamp)
  }

  function AfterGet(cfg: Settings, s: Local, response: GetResponse, clock: real, stamp: int): (Local, Decision) {
    match response
    case Absent =>
      if s.active then (s, Raise(LeadershipLost))
      else (s, Create(Spec(cfg.identity, Some(cfg.leaseDuration), stamp, stamp, Some(0))))
    case GetStatus(code) => (s, if Fatal(code) then Raise(FatalStatus) else TryLater)
    case Present(current) =>
      var holder := current.spec.holder;
      var sameUid := s.lease.Some? && s.lease.value.uid == current.uid;
      if s.active && (holder != cfg.identity || !sameUid) then (s, Raise(LeadershipLost))
      else if !current.Identified() then (s, Raise(InvalidLease))
      else
        var seen := Observed(s, current, clock);
        var body := current.(spec := Claimed(cfg, current.spec, stamp));
        if holder == "" || holder == cfg.identity then (seen, Update(body))
        else if current.spec.duration.None? || current.spec.duration.value <= 0 then (seen, Raise(InvalidLease))
        else if clock - seen.observedAt < current.spec.duration.value as real then (seen, TryLater)
        else (seen, Update(body))
  }

  function AfterWrite(s: Local, started: real, response: WriteResponse, clock: real): (Local, Outcome) {
    match response
    case WriteStatus(code) => (s, if Fatal(code) then Raised(FatalStatus) else NotHeld)
    case Accepted(lease) =>
      if !lease.Identified() then (s, Raised(InvalidLease))
      else (Observed(s, lease, clock).(lastRenewed := started), Held)
  }

  /** The release write, or None when the Lease is no longer this participant's. */
  function AfterReleaseGet(cfg: Settings, s: Local, response: GetResponse, stamp: int): Option<Lease> {
    if response.Present? && s.lease.Some?
       && response.lease.spec.holder == cfg.identity && response.lease.uid == s.lease.value.uid
    then Some(response.lease.(spec := Released(response.lease.spec, stamp)))
    else None
  }

  class LeaderElection {
    const settings: Settings
    var active: bool
    var lastRenewed: real
    var observedAt: real
    var record: Option<(string, Spec)>
    var lease: Option<Lease>

    function State(): Local reads this { Local(active, lastRenewed, observedAt, record, lease) }

    constructor (settings: Settings)
      requires settings.Valid()
      ensures this.settings == settings && State() == INITIAL
    {
      this.settings := settings;
      active, lastRenewed, observedAt, record, lease := false, 0.0, 0.0, None, None;
    }

    method IsLeader(clock: real) returns (leader: bool)
      ensures leader == IsLeaderAt(settings, State(), clock)
    {
      leader := active && clock < lastRenewed + settings.renewDeadline;
    }

    method Observe(seen: Lease, clock: real) returns (ok: bool)
      modifies this
      ensures ok == seen.Identified()
      ensures State() == if ok then Observed(old(State()), seen, clock) else old(State())
    {
      ok := seen.Identified();
      if !ok { return; }
      if record != Some(seen.Record()) {
        record := Some(seen.Record());
        observedAt := clock;
      }
      lease := Some(seen);
    }

    /** A renewal attempt never runs past the deadline it is meant to extend. */
    method BeginAttempt(clock: real) returns (timeout: Option<real>)
      requires settings.Valid()
      ensures timeout == Budget(settings, State(), clock)
      ensures timeout.Some? ==> 0.0 < timeout.value <= settings.retryPeriod
      ensures active ==> (timeout.Some? <==> IsLeaderAt(settings, State(), clock))
      ensures active && timeout.Some? ==> clock + timeout.value <= lastRenewed + settings.renewDeadline
    {
      var budget := settings.retryPeriod;
      if active {
        var left := lastRenewed + settings.renewDeadline - clock;
        if left < budget { budget := left; }
        if budget <= 0.0 { return None; }
      }
      timeout := Some(budget);
    }

    method OnGet(response: GetResponse, clock: real, stamp: int) returns (decision: Decision)
      modifies this
      ensures (State(), decision) == AfterGet(settings, old(State()), response, clock, stamp)
    {
      if response.Absent? {
        if active { return Raise(LeadershipLost); }
        return Create(Spec(settings.identity, Some(settings.leaseDuration), stamp, stamp, Some(0)));
      }
      if response.GetStatus? {
        return if Fatal(response.code) then Raise(FatalStatus) else TryLater;
      }
      var current := response.lease;
      var spec := current.spec;
      var previousUid := if lease.Some? then Some(lease.value.uid) else None;
      if active && (spec.holder != settings.identity || Some(current.uid) != previousUid) {
        return Raise(LeadershipLost);
      }
      var ok := Observe(current, clock);
      if !ok { return Raise(InvalidLease); }
      if spec.holder != "" && spec.holder != settings.identity {
        if spec.duration.None? || spec.duration.value <= 0 { return Raise(InvalidLease); }
        if clock - observedAt < spec.duration.value as real { return TryLater; }
      }
      var body := spec.(holder := settings.identity, duration := Some(settings.leaseDuration), renewTime := stamp);
      if spec.holder != settings.identity {
        body := body.(acquireTime := stamp, transitions := Some(spec.TransitionCount() + 1));
      }
      decision := Update(current.(spec := body));
    }

    method OnWrite(started: real, response: WriteResponse, clock: real) returns (outcome: Outcome)
      modifies this
      ensures (State(), outcome) == AfterWrite(old(State()), started, response, clock)
    {
      if response.WriteStatus? {
        return if Fatal(response.code) then Raised(FatalStatus) else NotHeld;
      }
      var ok := Observe(response.lease, clock);
      if !ok { return Raised(InvalidLease); }
      lastRenewed := started;
      outcome := Held;
    }

    method OnReleaseGet(response: GetResponse, stamp: int) returns (body: Option<Lease>)
      ensures body == AfterReleaseGet(settings, State(), response, stamp)
    {
      if lease.None? || !response.Present? { return None; }
      var current := response.lease;
      if current.spec.holder != settings.identity || current.uid != lease.value.uid { return None; }
      body := Some(current.(spec := Released(current.spec, stamp)));
    }
  }
}
