/** What the election achieves: a Lease that may be taken is taken by one undisturbed attempt, a
    leader's attempt renews, and a release frees the Lease at once. */
module LeaderProgress {
  import opened Wrappers
  import opened LeaderElection
  import opened LeaderProtocol
  import opened LeaderSafety

  /** The Lease is absent, free, the participant's own, or held by somebody whose own duration has
      passed since the participant first saw the current record. */
  predicate Takeable(c: Cluster, p: string)
    requires p in c.peers
  {
    match c.lease
    case None => true
    case Some(lease) =>
      || lease.spec.holder == "" || lease.spec.holder == p
      || (&& lease.spec.duration.Some? && 0 < lease.spec.duration.value
          && c.peers[p].local.record == Some((lease.uid, lease.spec))
          && c.peers[p].local.observedAt + lease.spec.duration.value as real <= c.Clock(p))
  }

  predicate StandsBy(c: Cluster, p: string) {
    p in c.peers && c.peers[p].phase.Standby? && !c.peers[p].local.active
  }

  /** What a claim writes: the time of acquisition and the number of transitions change exactly
      with the holder. */
  predicate ClaimOver(prior: Option<Lease>, spec: Spec, p: string, duration: int, stamp: int) {
    && spec.holder == p && spec.duration == Some(duration) && spec.renewTime == stamp
    && match prior
       case None => spec.acquireTime == stamp && spec.TransitionCount() == 0
       case Some(lease) =>
         if lease.spec.holder == p then
           spec.acquireTime == lease.spec.acquireTime && spec.transitions == lease.spec.transitions
         else
           spec.acquireTime == stamp && spec.transitions == Some(lease.spec.TransitionCount() + 1)
  }

  // ----- one attempt up to its request -----

  function Reading(p: string, stamp: int): seq<Choice> { [Begin(p), ServeGet(p), ReceiveGet(p, stamp)] }

  lemma RunCons(c: Cluster, x: Choice, rest: seq<Choice>)
    ensures Run(c, [x] + rest) == Run(Step(c, x), rest)
  {
    assert ([x] + rest)[1..] == rest;
  }

  lemma RunOne(c: Cluster, x: Choice)
    ensures Run(c, [x]) == Step(c, x)
  {
    RunCons(c, x, []);
    assert [x] + [] == [x];
  }

  lemma RunTwo(c: Cluster, x: Choice, y: Choice)
    ensures Run(c, [x, y]) == Step(Step(c, x), y)
  {
    RunCons(c, x, [y]);
    RunOne(Step(c, x), y);
    assert [x] + [y] == [x, y];
  }

  lemma RunThree(c: Cluster, x: Choice, y: Choice, z: Choice)
    ensures Run(c, [x, y, z]) == Step(Step(Step(c, x), y), z)
  {
    RunCons(c, x, [y, z]);
    RunTwo(Step(c, x), y, z);
    assert [x] + [y, z] == [x, y, z];
  }

  function Fetching(c: Cluster, p: string): Cluster
    requires p in c.peers
  {
    With(c, p, c.peers[p].(phase := Fetched(c.Clock(p), c.lease)))
  }

  lemma AttemptReads(c: Cluster, p: string, stamp: int)
    requires p in c.peers && (c.peers[p].phase.Standby? || c.peers[p].phase.Lead?)
    requires Budget(c.peers[p].cfg, c.peers[p].local, c.Clock(p)).Some?
    ensures Run(c, Reading(p, stamp)) == StepReceiveGet(Fetching(c, p), p, stamp)
  {
    RunThree(c, Begin(p), ServeGet(p), ReceiveGet(p, stamp));
    var begun := Step(c, Begin(p));
    assert begun == With(c, p, c.peers[p].(phase := Fetch(c.Clock(p))));
    assert Step(begun, ServeGet(p)) == Fetching(c, p);
  }

  predicate OnlyTouches(c: Cluster, d: Cluster, p: string) {
    d.peers.Keys == c.peers.Keys && forall q <- c.peers :: q != p ==> d.peers[q] == c.peers[q]
  }

  /** The request that an attempt sends. */
  predicate Claims(c: Cluster, w: Write, p: string, stamp: int)
    requires p in c.peers
  {
    && w.base == (if c.lease.Some? then Some(c.lease.value.version) else None)
    && (c.lease.Some? ==> w.uid == c.lease.value.uid)
    && ClaimOver(c.lease, w.spec, p, c.peers[p].cfg.leaseDuration, stamp)
  }

  /** The request of an attempt, if it makes one. */
  predicate Sends(c: Cluster, d: Cluster, p: string, stamp: int)
    requires p in c.peers
  {
    && OnlyTouches(c, d, p) && d.peers[p].phase == Writing(c.Clock(p), c.nextId)
    && d.net.Keys == c.net.Keys + {c.nextId}
    && d.lease == c.lease && d.now == c.now && d.replies == c.replies && d.peers[p].offset == c.peers[p].offset
    && d.peers[p].cfg == c.peers[p].cfg && d.peers[p].local.active == c.peers[p].local.active
    && Claims(c, d.net[c.nextId], p, stamp)
  }

  function Asked(c: Cluster, p: string, decision: Decision): Write
    requires decision.Create? || decision.Update?
  {
    match decision
    case Create(spec) => Write(p, None, "", spec)
    case Update(body) => Write(p, Some(body.version), body.uid, body.spec)
  }

  function Told(c: Cluster, p: string, stamp: int): (Local, Decision)
    requires p in c.peers
  {
    AfterGet(c.peers[p].cfg, c.peers[p].local, Response(c.lease), c.Clock(p), stamp)
  }

  function Asking(c: Cluster, p: string, stamp: int): Peer
    requires p in c.peers
  {
    var peer := c.peers[p];
    Peer(peer.cfg, peer.offset, Told(c, p, stamp).0, Writing(c.Clock(p), c.nextId), peer.acquired, peer.stamps
         + {stamp})
  }

  lemma RequestIs(c: Cluster, p: string, stamp: int)
    requires p in c.peers && (Told(c, p, stamp).1.Create? || Told(c, p, stamp).1.Update?)
    ensures StepReceiveGet(Fetching(c, p), p, stamp)
            == Send(c, p, Asking(c, p, stamp), Asked(c, p, Told(c, p, stamp).1), Writing(c.Clock(p), c.nextId))
  {
    var s := Fetching(c, p);
    assert s.peers[p := Asking(c, p, stamp)] == c.peers[p := Asking(c, p, stamp)];
  }

  lemma RequestSends(c: Cluster, p: string, stamp: int)
    requires p in c.peers && (Told(c, p, stamp).1.Create? || Told(c, p, stamp).1.Update?)
    requires Claims(c, Asked(c, p, Told(c, p, stamp).1), p, stamp)
    requires Told(c, p, stamp).0.active == c.peers[p].local.active
    ensures Sends(c, StepReceiveGet(Fetching(c, p), p, stamp), p, stamp)
  {
    RequestIs(c, p, stamp);
  }

  lemma MayClaim(c: Cluster, p: string, stamp: int)
    requires Inv(c) && StandsBy(c, p) && Takeable(c, p)
    ensures Told(c, p, stamp).1.Create? || Told(c, p, stamp).1.Update?
    ensures Claims(c, Asked(c, p, Told(c, p, stamp).1), p, stamp) && !Told(c, p, stamp).0.active
  {
    assert PeerOk(c, p) && TimerOk(c, p);
  }

  lemma MaySend(c: Cluster, p: string, stamp: int)
    requires Inv(c) && StandsBy(c, p) && Takeable(c, p)
    ensures Sends(c, StepReceiveGet(Fetching(c, p), p, stamp), p, stamp)
  {
    MayClaim(c, p, stamp);
    RequestSends(c, p, stamp);
  }

  predicate Waits(c: Cluster, d: Cluster, p: string) {
    d.net == c.net && d.lease == c.lease && p in d.peers && !d.peers[p].phase.Writing?
  }

  lemma MustWait(c: Cluster, p: string, stamp: int)
    requires Inv(c) && StandsBy(c, p) && !Takeable(c, p)
    ensures Waits(c, StepReceiveGet(Fetching(c, p), p, stamp), p)
  {
    assert PeerOk(c, p) && TimerOk(c, p);
  }

  /** A participant on standby asks for the Lease exactly when it may take it. */
  lemma AttemptSends(c: Cluster, p: string, stamp: int)
    requires Inv(c) && StandsBy(c, p)
    ensures var d := Run(c, Reading(p, stamp)); if Takeable(c, p) then Sends(c, d, p, stamp) else Waits(c, d, p)
  {
    assert PeerOk(c, p);
    AttemptReads(c, p, stamp);
    if Takeable(c, p) { MaySend(c, p, stamp); } else { MustWait(c, p, stamp); }
  }

  /** Which failed requests leave a participant trying: all but the client errors that no later
      attempt can cure. */
  lemma KeepsTrying(cfg: Settings, s: Local, code: Option<int>, started: real, clock: real, stamp: int)
    ensures var final := code.Some? && 400 <= code.value < 500
                         && code.value != 404 && code.value != 408 && code.value != 409 && code.value != 429;
            && AfterGet(cfg, s, GetStatus(code), clock, stamp) == (s, if final then Raise(FatalStatus) else TryLater)
            && AfterWrite(s, started, WriteStatus(code), clock)
               == (s, if final then Raised(FatalStatus) else NotHeld)
  {
  }

  // ----- the whole attempt -----

  function Attempt(c: Cluster, p: string, stamp: int, uid: string, gap: nat): seq<Choice> {
    Reading(p, stamp) + [ServeWrite(c.nextId, uid, gap), ReceiveWrite(p, false)]
  }

  /** What a served attempt leaves: the Lease carries the claim, and the participant leads with a
      deadline counted from the start of the attempt. */
  predicate Leads(c: Cluster, d: Cluster, p: string, stamp: int)
    requires p in c.peers
  {
    && OnlyTouches(c, d, p) && d.now == c.now && d.IsLeader(p) && d.peers[p].local.lastRenewed == c.Clock(p)
    && d.lease.Some? && ClaimOver(c.lease, d.lease.value.spec, p, c.peers[p].cfg.leaseDuration, stamp)
    && (c.lease.Some? ==> d.lease.value.uid == c.lease.value.uid && c.lease.value.version < d.lease.value.version)
  }

  lemma {:induction false} RunSplit(c: Cluster, a: seq<Choice>, b: seq<Choice>)
    ensures Run(c, a + b) == Run(Run(c, a), b)
    decreases |a|
  {
    if a == [] {
      assert a + b == b;
    } else {
      assert (a + b)[0] == a[0] && (a + b)[1..] == a[1..] + b;
      RunSplit(Step(c, a[0]), a[1..], b);
    }
  }

  /** The claim has been stored and its answer waits. */
  predicate Stored(c: Cluster, d: Cluster, p: string, stamp: int)
    requires p in c.peers
  {
    && OnlyTouches(c, d, p) && d.now == c.now && d.peers[p].phase == Writing(c.Clock(p), c.nextId)
    && d.peers[p].offset == c.peers[p].offset && d.peers[p].cfg == c.peers[p].cfg
    && d.lease.Some? && d.lease.value.Identified() && c.nextId in d.replies && d.replies[c.nextId] == d.lease
    && ClaimOver(c.lease, d.lease.value.spec, p, c.peers[p].cfg.leaseDuration, stamp)
    && (c.lease.Some? ==> d.lease.value.uid == c.lease.value.uid && c.lease.value.version < d.lease.value.version)
  }

  lemma ClaimStored(c: Cluster, s: Cluster, p: string, stamp: int, uid: string, gap: nat)
    requires p in c.peers && Sends(c, s, p, stamp)
    requires if c.lease.Some? then c.lease.value.Identified() else uid != ""
    ensures Stored(c, Step(s, ServeWrite(c.nextId, uid, gap)), p, stamp)
  {
  }

  lemma ClaimAnswered(c: Cluster, s: Cluster, p: string, stamp: int)
    requires p in c.peers && c.peers[p].cfg.Valid() && Stored(c, s, p, stamp)
    ensures Leads(c, Step(s, ReceiveWrite(p, false)), p, stamp)
  {
  }

  /** A request that has just been made is stored and answered. */
  lemma WriteSucceeds(c: Cluster, s: Cluster, p: string, stamp: int, uid: string, gap: nat)
    requires p in c.peers && c.peers[p].cfg.Valid() && Sends(c, s, p, stamp)
    requires if c.lease.Some? then c.lease.value.Identified() else uid != ""
    ensures Leads(c, Run(s, [ServeWrite(c.nextId, uid, gap), ReceiveWrite(p, false)]), p, stamp)
  {
    RunTwo(s, ServeWrite(c.nextId, uid, gap), ReceiveWrite(p, false));
    ClaimStored(c, s, p, stamp, uid, gap);
    ClaimAnswered(c, Step(s, ServeWrite(c.nextId, uid, gap)), p, stamp);
  }

  /** Progress: whoever stands by and may take the Lease leads after one undisturbed attempt. The
      server names a Lease that it creates. */
  lemma Acquires(c: Cluster, p: string, stamp: int, uid: string, gap: nat)
    requires Inv(c) && StandsBy(c, p) && Takeable(c, p) && (c.lease.None? ==> uid != "")
    ensures Leads(c, Run(c, Attempt(c, p, stamp, uid, gap)), p, stamp)
  {
    AttemptSends(c, p, stamp);
    RunSplit(c, Reading(p, stamp), [ServeWrite(c.nextId, uid, gap), ReceiveWrite(p, false)]);
    assert PeerOk(c, p);
    WriteSucceeds(c, Run(c, Reading(p, stamp)), p, stamp, uid, gap);
  }

  // ----- a leader renews -----

  /** Everybody knows the Lease under its one UID, and a leader has seen it. */
  predicate KnownBy(c: Cluster, p: string)
    requires p in c.peers
  {
    var local := c.peers[p].local;
    && Seeing(local)
    && (local.active ==> local.lease.Some? && c.peers[p].acquired)
  }

  predicate Known(c: Cluster) {
    && (c.lease.Some? ==> forall r <- c.history :: r.0 == c.lease.value.uid)
    && forall p <- c.peers :: KnownBy(c, p)
  }

  lemma KnownServe(c: Cluster, id: nat, uid: string, gap: nat)
    requires Inv(c) && Known(c) && id in c.net
    ensures Known(StepServeWrite(c, id, uid, gap))
  {
    var d := StepServeWrite(c, id, uid, gap);
    assert WriteOk(c, c.net[id]);
    forall p <- d.peers ensures KnownBy(d, p) { assert KnownBy(c, p); }
  }

  lemma KnownLocal(c: Cluster, d: Cluster, p: string)
    requires Known(c) && p in c.peers && p in d.peers && d.lease == c.lease && d.history == c.history
    requires d.peers == c.peers[p := d.peers[p]] && KnownBy(d, p)
    ensures Known(d)
  {
    forall q <- d.peers ensures KnownBy(d, q) { if q != p { assert KnownBy(c, q); } }
  }

  predicate Seeing(local: Local) { local.lease.Some? ==> local.record == Some(local.lease.value.Record()) }

  lemma GetKnows(cfg: Settings, s: Local, response: GetResponse, clock: real, stamp: int)
    requires Seeing(s)
    ensures var after := AfterGet(cfg, s, response, clock, stamp).0;
            Seeing(after) && after.active == s.active && (s.lease.Some? ==> after.lease.Some?)
  {
  }

  lemma KnownGet(c: Cluster, p: string, stamp: int)
    requires Known(c) && Enabled(c, ReceiveGet(p, stamp))
    ensures Known(StepReceiveGet(c, p, stamp))
  {
    var peer := c.peers[p];
    var after := AfterGet(peer.cfg, peer.local, Response(peer.phase.found), c.Clock(p), stamp).0;
    assert KnownBy(c, p);
    GetKnows(peer.cfg, peer.local, Response(peer.phase.found), c.Clock(p), stamp);
    assert StepReceiveGet(c, p, stamp).peers[p].local == after;
    KnownLocal(c, StepReceiveGet(c, p, stamp), p);
  }

  lemma KnownReply(c: Cluster, p: string, stopRequested: bool)
    requires Known(c) && Enabled(c, ReceiveWrite(p, stopRequested))
    ensures Known(StepReceiveWrite(c, p, stopRequested))
  {
    assert KnownBy(c, p);
    KnownLocal(c, StepReceiveWrite(c, p, stopRequested), p);
  }

  lemma KnownRelease(c: Cluster, p: string, stamp: int)
    requires Known(c) && Enabled(c, ReceiveReleaseGet(p, stamp))
    ensures Known(StepReceiveReleaseGet(c, p, stamp))
  {
    assert KnownBy(c, p);
    KnownLocal(c, StepReceiveReleaseGet(c, p, stamp), p);
  }

  lemma KnownOwn(c: Cluster, choice: Choice)
    requires Known(c) && OwnChoice(c, choice)
    ensures Known(Step(c, choice))
  {
    OwnStepShape(c, choice);
    assert KnownBy(c, choice.p);
    KnownLocal(c, Step(c, choice), choice.p);
  }

  lemma KnownTick(c: Cluster, elapsed: real)
    requires Known(c)
    ensures Known(c.(now := c.now + elapsed))
  {
    forall p <- c.peers ensures KnownBy(c.(now := c.now + elapsed), p) { assert KnownBy(c, p); }
  }

  lemma KnownStep(c: Cluster, choice: Choice)
    requires Inv(c) && Known(c)
    ensures Known(Step(c, choice))
  {
    if Enabled(c, choice) {
      match choice
      case Tick(elapsed) => KnownTick(c, elapsed);
      case ReceiveGet(p, stamp) => KnownGet(c, p, stamp);
      case ServeWrite(id, uid, gap) => KnownServe(c, id, uid, gap);
      case ReceiveWrite(p, stopRequested) => KnownReply(c, p, stopRequested);
      case ReceiveReleaseGet(p, stamp) => KnownRelease(c, p, stamp);
      case _ => KnownOwn(c, choice);
    }
  }

  lemma {:induction false} KnownRun(c: Cluster, choices: seq<Choice>)
    requires Inv(c) && Known(c) && RecordsFresh(c, choices)
    ensures Inv(Run(c, choices)) && Known(Run(c, choices))
    decreases |choices|
  {
    if choices != [] {
      KnownStep(c, choices[0]);
      InvStep(c, choices[0]);
      KnownRun(Step(c, choices[0]), choices[1..]);
    }
  }

  /** A participant that leads and is between two attempts. */
  predicate LeadsIdle(c: Cluster, p: string) { c.IsLeader(p) && c.peers[p].phase.Lead? }

  lemma RenewalClaims(c: Cluster, p: string, stamp: int)
    requires Inv(c) && Known(c) && LeadsIdle(c, p)
    ensures c.lease.Some? && c.lease.value.spec.holder == p
    ensures Told(c, p, stamp).1.Update? && Told(c, p, stamp).0.active
    ensures Claims(c, Asked(c, p, Told(c, p, stamp).1), p, stamp)
  {
    assert PeerOk(c, p) && TimerOk(c, p) && ClaimsOk(c, p) && KnownBy(c, p);
  }

  lemma RenewalSends(c: Cluster, p: string, stamp: int)
    requires Inv(c) && Known(c) && LeadsIdle(c, p)
    ensures Sends(c, Run(c, Reading(p, stamp)), p, stamp)
  {
    assert PeerOk(c, p);
    AttemptReads(c, p, stamp);
    RenewalClaims(c, p, stamp);
    RequestSends(c, p, stamp);
  }

  /** In every run a leader whose attempt begins before its deadline and is not disturbed goes on
      leading, from the start of that attempt on. */
  lemma Renews(start: Cluster, choices: seq<Choice>, p: string, stamp: int, uid: string, gap: nat)
    requires Initial(start) && RecordsFresh(start, choices) && LeadsIdle(Run(start, choices), p)
    ensures var c := Run(start, choices); Leads(c, Run(c, Attempt(c, p, stamp, uid, gap)), p, stamp)
  {
    KnownRun(start, choices);
    var c := Run(start, choices);
    RenewalSends(c, p, stamp);
    RunSplit(c, Reading(p, stamp), [ServeWrite(c.nextId, uid, gap), ReceiveWrite(p, false)]);
    assert PeerOk(c, p);
    WriteSucceeds(c, Run(c, Reading(p, stamp)), p, stamp, uid, gap);
  }

  // ----- a release frees the Lease -----

  function Releasing(p: string, stamp: int): seq<Choice> { [Stop(p), ServeReleaseGet(p), ReceiveReleaseGet(p, stamp)] }

  function Release(c: Cluster, p: string, stamp: int, gap: nat): seq<Choice> {
    Releasing(p, stamp) + [ServeWrite(c.nextId, "", gap)]
  }

  /** Only the holder, its duration and the renewal time change. */
  predicate FreedOver(prior: Spec, spec: Spec, stamp: int) {
    && spec.holder == "" && spec.renewTime == stamp
    && spec.acquireTime == prior.acquireTime && spec.transitions == prior.transitions
  }

  function ReleaseRead(c: Cluster, p: string): Cluster
    requires p in c.peers
  {
    var peer := c.peers[p];
    With(c, p, peer.(local := peer.local.(active := false), phase := ReleaseFetched(c.lease)))
  }

  function StoppedLead(c: Cluster, p: string): Cluster
    requires p in c.peers
  {
    var peer := c.peers[p];
    With(c, p, peer.(local := peer.local.(active := false), phase := Phase.Releasing))
  }

  lemma LeadStops(c: Cluster, p: string)
    requires Known(c) && LeadsIdle(c, p)
    ensures Step(c, Stop(p)) == StoppedLead(c, p)
  {
    assert KnownBy(c, p);
  }

  lemma ReleaseReads(c: Cluster, p: string, stamp: int)
    requires Known(c) && LeadsIdle(c, p)
    ensures Run(c, Releasing(p, stamp)) == StepReceiveReleaseGet(ReleaseRead(c, p), p, stamp)
  {
    RunThree(c, Stop(p), ServeReleaseGet(p), ReceiveReleaseGet(p, stamp));
    LeadStops(c, p);
    assert Step(StoppedLead(c, p), ServeReleaseGet(p)) == ReleaseRead(c, p);
  }

  /** The request to release. */
  predicate Freeing(c: Cluster, d: Cluster, p: string, stamp: int) {
    && OnlyTouches(c, d, p) && !d.IsLeader(p)
    && c.lease.Some? && c.nextId in d.net && d.lease == c.lease && d.now == c.now
    && d.net[c.nextId].base == Some(c.lease.value.version) && d.net[c.nextId].uid == c.lease.value.uid
    && FreedOver(c.lease.value.spec, d.net[c.nextId].spec, stamp)
  }

  lemma ReleaseSends(c: Cluster, p: string, stamp: int)
    requires Inv(c) && Known(c) && LeadsIdle(c, p)
    ensures Freeing(c, StepReceiveReleaseGet(ReleaseRead(c, p), p, stamp), p, stamp)
  {
    assert PeerOk(c, p) && TimerOk(c, p) && ClaimsOk(c, p) && KnownBy(c, p);
  }

  /** What a release leaves: the Lease free and nobody else touched. */
  predicate Freed(c: Cluster, d: Cluster, p: string, stamp: int) {
    && c.lease.Some? && d.lease.Some? && d.lease.value.uid == c.lease.value.uid && d.now == c.now
    && FreedOver(c.lease.value.spec, d.lease.value.spec, stamp) && !d.IsLeader(p) && OnlyTouches(c, d, p)
  }

  lemma ReleaseFrees(c: Cluster, p: string, stamp: int, gap: nat)
    requires Inv(c) && Known(c) && LeadsIdle(c, p)
    ensures Freed(c, Run(c, Release(c, p, stamp, gap)), p, stamp)
  {
    var s := Run(c, Releasing(p, stamp));
    ReleaseReads(c, p, stamp);
    ReleaseSends(c, p, stamp);
    RunSplit(c, Releasing(p, stamp), [ServeWrite(c.nextId, "", gap)]);
    RunOne(s, ServeWrite(c.nextId, "", gap));
  }

  /** A leader that stops and releases leaves the Lease free. */
  lemma Releases(start: Cluster, choices: seq<Choice>, p: string, stamp: int, gap: nat)
    requires Initial(start) && RecordsFresh(start, choices) && LeadsIdle(Run(start, choices), p)
    ensures var c := Run(start, choices); Freed(c, Run(c, Release(c, p, stamp, gap)), p, stamp)
  {
    KnownRun(start, choices);
    ReleaseFrees(Run(start, choices), p, stamp, gap);
  }

  // ----- handing over -----

  /** A release never brings a stored record back: it undoes the only claim of its transition. */
  lemma ReleaseFresh(c: Cluster, id: nat, uid: string, gap: nat)
    requires Inv(c) && id in c.net && c.net[id].spec.holder == ""
    ensures !Repeats(c, ServeWrite(id, uid, gap))
  {
    assert WriteOk(c, c.net[id]);
  }

  lemma ReleaseKeeps(c: Cluster, p: string, stamp: int, gap: nat)
    requires Inv(c) && Known(c) && LeadsIdle(c, p)
    ensures Inv(Run(c, Release(c, p, stamp, gap)))
  {
    var stopped := Step(c, Stop(p));
    var read := Step(stopped, ServeReleaseGet(p));
    var s := Step(read, ReceiveReleaseGet(p, stamp));
    RunThree(c, Stop(p), ServeReleaseGet(p), ReceiveReleaseGet(p, stamp));
    InvStep(c, Stop(p));
    InvStep(stopped, ServeReleaseGet(p));
    InvStep(read, ReceiveReleaseGet(p, stamp));
    ReleaseReads(c, p, stamp);
    ReleaseSends(c, p, stamp);
    RunSplit(c, Releasing(p, stamp), [ServeWrite(c.nextId, "", gap)]);
    RunOne(s, ServeWrite(c.nextId, "", gap));
    ReleaseFresh(s, c.nextId, "", gap);
    InvStep(s, ServeWrite(c.nextId, "", gap));
  }

  /** After a release whoever stands by takes over at once, without waiting for any duration. */
  lemma HandsOver(start: Cluster, choices: seq<Choice>, p: string, q: string, stamp: int, gap: nat)
    requires Initial(start) && RecordsFresh(start, choices)
    requires LeadsIdle(Run(start, choices), p) && StandsBy(Run(start, choices), q)
    ensures var c := Run(start, choices);
            var freed := Run(c, Release(c, p, stamp, gap));
            var d := Run(freed, Attempt(freed, q, stamp, "", gap));
            && d.now == c.now && d.IsLeader(q) && q != p && !d.IsLeader(p)
            && d.lease.Some? && d.lease.value.spec.holder == q
  {
    KnownRun(start, choices);
    var c := Run(start, choices);
    ReleaseFrees(c, p, stamp, gap);
    ReleaseKeeps(c, p, stamp, gap);
    Acquires(Run(c, Release(c, p, stamp, gap)), q, stamp, "", gap);
  }
}
