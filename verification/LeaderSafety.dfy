/** Mutual exclusion: over every run in which no stored record comes back, at most one participant
    considers itself leader, and it is the holder stored on the server. */
module LeaderSafety {
  import opened Wrappers
  import opened LeaderElection
  import opened LeaderProtocol

  // ----- the invariant, clause by clause -----

  predicate PeerOk(c: Cluster, p: string)
    requires p in c.peers
  {
    var peer := c.peers[p];
    && peer.cfg.Valid() && peer.cfg.identity == p
    && (peer.Stopped() ==> !peer.local.active)
    && (peer.phase.Fetch? || peer.phase.Fetched? || peer.phase.Writing? ==> peer.phase.started <= c.Clock(p))
    && (peer.phase.Writing? ==> peer.phase.id < c.nextId)
    && (peer.phase.Writing? && peer.phase.id in c.net ==>
          c.net[peer.phase.id].sender == p && c.net[peer.phase.id].spec.holder == p)
  }

  predicate LeaseOk(c: Cluster) {
    c.lease.Some? ==>
      && c.lease.value.Identified()
      && c.lease.value.Record() in c.history
      && c.writtenAt <= c.now
  }

  /** A Lease somebody has read is on the record, and its version tells whether it is current. */
  predicate Seen(c: Cluster, found: Option<Lease>) {
    found.Some? ==>
      && c.lease.Some?
      && found.value.Record() in c.history
      && found.value.version <= c.lease.value.version
      && (found.value.version == c.lease.value.version ==> found.value == c.lease.value)
  }

  predicate ReadsOk(c: Cluster, p: string)
    requires p in c.peers
  {
    && (c.peers[p].phase.Fetched? || c.peers[p].phase.ReleaseFetched? ==> Seen(c, c.peers[p].phase.found))
    && (c.peers[p].phase.Writing? && c.peers[p].phase.id in c.replies ==> Seen(c, c.replies[c.peers[p].phase.id]))
  }

  /** The first sight of the current record comes no earlier than its write. */
  predicate TimerOk(c: Cluster, p: string)
    requires p in c.peers
  {
    var local := c.peers[p].local;
    local.record.Some? ==>
      && local.record.value in c.history
      && (c.lease.Some? && local.record.value == c.lease.value.Record() ==>
            c.writtenAt + c.peers[p].offset <= local.observedAt)
  }

  /** An update that can still succeed was derived from the current Lease, and takes it from
      another holder only once that holder's duration has passed since the last write. */
  predicate WriteOk(c: Cluster, w: Write) {
    && w.sender in c.peers
    && (w.spec.holder == w.sender || (w.spec.holder == "" && c.peers[w.sender].Stopped()))
    && (w.spec.holder == w.sender ==> w.spec.duration == Some(c.peers[w.sender].cfg.leaseDuration))
    && (w.base.None? ==> w.spec.holder == w.sender)
    && (w.base.Some? ==> c.lease.Some? && w.base.value <= c.lease.value.version)
    && (w.base.Some? && w.base.value == c.lease.value.version ==> Derived(c, w, c.lease.value.spec))
  }

  predicate Derived(c: Cluster, w: Write, prior: Spec)
    requires w.sender in c.peers
  {
    if w.spec.holder == "" then prior.holder == w.sender && w.spec.TransitionCount() == prior.TransitionCount()
    else
      && w.spec.TransitionCount() == prior.TransitionCount() + (if prior.holder == w.sender then 0 else 1)
      && (prior.holder != "" && prior.holder != w.sender ==>
            prior.duration.Some? && c.writtenAt + prior.duration.value as real <= c.now)
  }

  predicate HistoryOk(c: Cluster) {
    && (c.lease.None? ==> c.history == {})
    && (c.lease.Some? ==> forall r <- c.history ::
          var count := c.lease.value.spec.TransitionCount();
          && r.1.TransitionCount() <= count
          && (r.1.holder == "" && r.1.TransitionCount() == count ==> r == c.lease.value.Record()))
  }

  predicate IdsOk(c: Cluster) {
    && (forall i <- c.net :: i < c.nextId && i !in c.replies)
    && (forall i <- c.replies :: i < c.nextId)
  }

  /** What a participant may rely on from a write it started at `started` on its own clock:
      the server still names it, or its own lease duration is over. */
  predicate Claim(c: Cluster, p: string, started: real)
    requires p in c.peers
  {
    var duration := c.peers[p].cfg.leaseDuration;
    || (&& c.lease.Some? && c.lease.value.spec.holder == p && c.lease.value.spec.duration == Some(duration)
        && started <= c.writtenAt + c.peers[p].offset)
    || started + duration as real <= c.Clock(p)
  }

  predicate ClaimsOk(c: Cluster, p: string)
    requires p in c.peers
  {
    && (c.peers[p].local.active ==> Claim(c, p, c.peers[p].local.lastRenewed))
    && (c.peers[p].WriteSucceededFor(c) ==> Claim(c, p, c.peers[p].phase.started))
  }

  predicate Inv(c: Cluster) {
    && "" !in c.peers
    && LeaseOk(c) && HistoryOk(c) && IdsOk(c)
    && (forall p <- c.peers :: PeerOk(c, p) && ReadsOk(c, p) && TimerOk(c, p) && ClaimsOk(c, p))
    && (forall i <- c.net :: WriteOk(c, c.net[i]))
  }

  // ----- every step keeps it -----

  lemma TickPeer(c: Cluster, elapsed: real, p: string)
    requires Inv(c) && 0.0 <= elapsed && p in c.peers
    ensures var d := c.(now := c.now + elapsed); PeerOk(d, p) && ReadsOk(d, p) && TimerOk(d, p) && ClaimsOk(d, p)
  {
    assert PeerOk(c, p) && ReadsOk(c, p) && TimerOk(c, p) && ClaimsOk(c, p);
  }

  lemma TickWrite(c: Cluster, elapsed: real, w: Write)
    requires 0.0 <= elapsed && WriteOk(c, w)
    ensures WriteOk(c.(now := c.now + elapsed), w)
  {
  }

  lemma InvTick(c: Cluster, elapsed: real)
    requires Inv(c) && 0.0 <= elapsed
    ensures Inv(Step(c, Tick(elapsed)))
  {
    var d := c.(now := c.now + elapsed);
    assert Step(c, Tick(elapsed)) == d;
    forall i <- d.net ensures WriteOk(d, d.net[i]) { TickWrite(c, elapsed, c.net[i]); }
    forall p <- d.peers ensures PeerOk(d, p) && ReadsOk(d, p) && TimerOk(d, p) && ClaimsOk(d, p) {
      TickPeer(c, elapsed, p);
    }
  }

  /** Steps that change only one participant, sending nothing. */
  lemma InvLocal(c: Cluster, p: string, peer: Peer)
    requires Inv(c) && p in c.peers
    requires peer.cfg == c.peers[p].cfg && peer.offset == c.peers[p].offset
    requires c.peers[p].Stopped() ==> peer.Stopped()
    requires var d := With(c, p, peer); PeerOk(d, p) && ReadsOk(d, p) && TimerOk(d, p) && ClaimsOk(d, p)
    ensures Inv(With(c, p, peer))
  {
    var d := With(c, p, peer);
    forall i <- d.net ensures WriteOk(d, d.net[i]) { assert WriteOk(c, c.net[i]); }
    forall q <- d.peers ensures PeerOk(d, q) && ReadsOk(d, q) && TimerOk(d, q) && ClaimsOk(d, q) {
      if q != p { assert PeerOk(c, q) && ReadsOk(c, q) && TimerOk(c, q) && ClaimsOk(c, q); }
    }
  }

  /** What must hold of a participant and its request before it is sent. */
  predicate Sendable(c: Cluster, p: string, peer: Peer, w: Write, phase: Phase)
    requires p in c.peers
  {
    && peer.cfg == c.peers[p].cfg && peer.offset == c.peers[p].offset && w.sender == p
    && (c.peers[p].Stopped() ==> phase.Finished?)
    && (|| (c.peers[p].phase.Fetched? && phase == Writing(c.peers[p].phase.started, c.nextId) && w.spec.holder == p)
        || (phase == Finished && !peer.local.active && w.spec.holder == "" && w.base.Some?))
    && WriteOk(With(c, p, peer.(phase := phase)), w)
    && TimerOk(With(c, p, peer), p)
    && (peer.local.active ==> Claim(With(c, p, peer), p, peer.local.lastRenewed))
  }

  lemma SendNet(c: Cluster, p: string, peer: Peer, w: Write, phase: Phase)
    requires Inv(c) && p in c.peers && Sendable(c, p, peer, w, phase)
    ensures var d := Send(c, p, peer, w, phase); forall i <- d.net :: WriteOk(d, d.net[i])
  {
    var d := Send(c, p, peer, w, phase);
    forall i <- d.net ensures WriteOk(d, d.net[i]) {
      if i != c.nextId { assert WriteOk(c, c.net[i]); }
    }
  }

  lemma SendPeer(c: Cluster, p: string, peer: Peer, w: Write, phase: Phase, q: string)
    requires Inv(c) && p in c.peers && q in c.peers && Sendable(c, p, peer, w, phase)
    ensures var d := Send(c, p, peer, w, phase); PeerOk(d, q) && ReadsOk(d, q) && TimerOk(d, q) && ClaimsOk(d, q)
  {
    assert PeerOk(c, q) && ReadsOk(c, q) && TimerOk(c, q) && ClaimsOk(c, q);
  }

  lemma InvSend(c: Cluster, p: string, peer: Peer, w: Write, phase: Phase)
    requires Inv(c) && p in c.peers && Sendable(c, p, peer, w, phase)
    ensures Inv(Send(c, p, peer, w, phase))
  {
    var d := Send(c, p, peer, w, phase);
    SendNet(c, p, peer, w, phase);
    forall q <- d.peers ensures PeerOk(d, q) && ReadsOk(d, q) && TimerOk(d, q) && ClaimsOk(d, q) {
      SendPeer(c, p, peer, w, phase, q);
    }
  }

  /** Reading the Lease keeps the observation timer honest. */
  lemma GetTimer(c: Cluster, p: string, stamp: int)
    requires Inv(c) && Enabled(c, ReceiveGet(p, stamp))
    ensures var peer := c.peers[p];
            var (local, _) := AfterGet(peer.cfg, peer.local, Response(peer.phase.found), c.Clock(p), stamp);
            && local.active == peer.local.active && local.lastRenewed == peer.local.lastRenewed
            && TimerOk(With(c, p, peer.(local := local, stamps := peer.stamps + {stamp})), p)
  {
    assert ReadsOk(c, p) && TimerOk(c, p);
  }

  function Got(c: Cluster, p: string, stamp: int): (Local, Decision)
    requires p in c.peers && c.peers[p].phase.Fetched?
  {
    var peer := c.peers[p];
    AfterGet(peer.cfg, peer.local, Response(peer.phase.found), c.Clock(p), stamp)
  }

  lemma CreateSendable(c: Cluster, p: string, stamp: int)
    requires Inv(c) && Enabled(c, ReceiveGet(p, stamp)) && Got(c, p, stamp).1.Create?
    ensures var peer := c.peers[p];
            var after := peer.(local := Got(c, p, stamp).0, stamps := peer.stamps + {stamp});
            Sendable(c, p, after, Write(p, None, "", Got(c, p, stamp).1.spec), Writing(peer.phase.started, c.nextId))
  {
    assert PeerOk(c, p) && TimerOk(c, p) && ClaimsOk(c, p);
  }

  /** An update is sent to a current Lease of another holder only after its whole duration. */
  lemma UpdateSendable(c: Cluster, p: string, stamp: int)
    requires Inv(c) && Enabled(c, ReceiveGet(p, stamp)) && Got(c, p, stamp).1.Update?
    ensures var peer := c.peers[p];
            var after := peer.(local := Got(c, p, stamp).0, stamps := peer.stamps + {stamp});
            var body := Got(c, p, stamp).1.body;
            Sendable(c, p, after, Write(p, Some(body.version), body.uid, body.spec),
                     Writing(peer.phase.started, c.nextId))
  {
    assert PeerOk(c, p) && ReadsOk(c, p) && TimerOk(c, p) && ClaimsOk(c, p);
    GetTimer(c, p, stamp);
  }

  lemma InvReceiveGet(c: Cluster, p: string, stamp: int)
    requires Inv(c) && Enabled(c, ReceiveGet(p, stamp))
    ensures Inv(Step(c, ReceiveGet(p, stamp)))
  {
    var peer := c.peers[p];
    var (local, decision) := AfterGet(peer.cfg, peer.local, Response(peer.phase.found), c.Clock(p), stamp);
    var after := peer.(local := local, stamps := peer.stamps + {stamp});
    match decision
    case Create(spec) =>
      CreateSendable(c, p, stamp);
      InvSend(c, p, after, Write(p, None, "", spec), Writing(peer.phase.started, c.nextId));
    case Update(body) =>
      UpdateSendable(c, p, stamp);
      InvSend(c, p, after, Write(p, Some(body.version), body.uid, body.spec), Writing(peer.phase.started, c.nextId));
    case _ =>
      GetTimer(c, p, stamp);
      var next := after.(phase := if decision.TryLater? then Between(after) else Broken);
      assert PeerOk(c, p) && ClaimsOk(c, p);
      InvLocal(c, p, next);
  }

  /** What receiving a reply changes: a success renews from the start of the attempt. */
  lemma ReceiveWriteShape(c: Cluster, p: string, stopRequested: bool)
    requires Enabled(c, ReceiveWrite(p, stopRequested))
    ensures var prior := c.peers[p]; var d := StepReceiveWrite(c, p, stopRequested); var peer := d.peers[p];
            && d == With(c, p, peer)
            && peer.cfg == prior.cfg && peer.offset == prior.offset && peer.stamps == prior.stamps
            && (peer.phase.Broken? || peer.phase.Lead? || peer.phase.Standby?)
            && (|| (peer.local == prior.local)
                || (&& prior.WriteSucceededFor(c)
                    && var seen := Observed(prior.local, c.replies[prior.phase.id].value, c.Clock(p));
                       peer.local == seen.(lastRenewed := prior.phase.started, active := peer.local.active)))
  {
  }

  lemma InvReceiveWrite(c: Cluster, p: string, stopRequested: bool)
    requires Inv(c) && Enabled(c, ReceiveWrite(p, stopRequested))
    ensures Inv(Step(c, ReceiveWrite(p, stopRequested)))
  {
    ReceiveWriteShape(c, p, stopRequested);
    assert PeerOk(c, p) && ReadsOk(c, p) && TimerOk(c, p) && ClaimsOk(c, p);
    InvLocal(c, p, StepReceiveWrite(c, p, stopRequested).peers[p]);
  }

  lemma InvReceiveReleaseGet(c: Cluster, p: string, stamp: int)
    requires Inv(c) && Enabled(c, ReceiveReleaseGet(p, stamp))
    ensures Inv(Step(c, ReceiveReleaseGet(p, stamp)))
  {
    var peer := c.peers[p];
    assert PeerOk(c, p) && ReadsOk(c, p) && TimerOk(c, p) && ClaimsOk(c, p);
    var after := peer.(stamps := peer.stamps + {stamp});
    match AfterReleaseGet(peer.cfg, peer.local, Response(peer.phase.found), stamp)
    case None => InvLocal(c, p, after.(phase := Finished));
    case Some(body) => InvSend(c, p, after, Write(p, Some(body.version), body.uid, body.spec), Finished);
  }

  lemma ServedPeer(c: Cluster, id: nat, uid: string, gap: nat, p: string)
    requires Inv(c) && id in c.net && p in c.peers && Served(c, c.net[id], uid, gap).Some?
    requires !Repeats(c, ServeWrite(id, uid, gap))
    ensures var d := StepServeWrite(c, id, uid, gap); PeerOk(d, p) && ReadsOk(d, p) && TimerOk(d, p) && ClaimsOk(d, p)
  {
    assert PeerOk(c, p) && ReadsOk(c, p) && TimerOk(c, p) && ClaimsOk(c, p) && WriteOk(c, c.net[id]);
  }

  /** A stored write leaves every other write on the network either stale or as good as before. */
  lemma ServedNet(c: Cluster, id: nat, uid: string, gap: nat, i: nat)
    requires Inv(c) && id in c.net && Served(c, c.net[id], uid, gap).Some? && i in c.net && i != id
    ensures var d := StepServeWrite(c, id, uid, gap); WriteOk(d, d.net[i])
  {
    assert WriteOk(c, c.net[i]);
  }

  lemma InvServeWrite(c: Cluster, id: nat, uid: string, gap: nat)
    requires Inv(c) && id in c.net && !Repeats(c, ServeWrite(id, uid, gap))
    ensures Inv(StepServeWrite(c, id, uid, gap))
  {
    var d := StepServeWrite(c, id, uid, gap);
    if Served(c, c.net[id], uid, gap).Some? {
      forall i <- d.net ensures WriteOk(d, d.net[i]) { ServedNet(c, id, uid, gap, i); }
      forall p <- d.peers
        ensures PeerOk(d, p) && ReadsOk(d, p) && TimerOk(d, p) && ClaimsOk(d, p)
      {
        ServedPeer(c, id, uid, gap, p);
      }
    } else {
      forall i <- d.net ensures WriteOk(d, d.net[i]) { assert WriteOk(c, c.net[i]); }
      forall p <- d.peers ensures PeerOk(d, p) && ReadsOk(d, p) && TimerOk(d, p) && ClaimsOk(d, p) {
        assert PeerOk(c, p) && ReadsOk(c, p) && TimerOk(c, p) && ClaimsOk(c, p);
      }
    }
  }

  predicate OwnChoice(c: Cluster, choice: Choice) {
    && Enabled(c, choice)
    && (choice.Begin? || choice.ServeGet? || choice.Abandon? || choice.Break? || choice.Stop?
        || choice.ServeReleaseGet?)
  }

  lemma OwnStepShape(c: Cluster, choice: Choice)
    requires OwnChoice(c, choice)
    ensures var p := choice.p; var d := Step(c, choice); var peer := d.peers[p];
            && d == With(c, p, peer)
            && peer.cfg == c.peers[p].cfg && peer.offset == c.peers[p].offset
            && peer.local.(active := c.peers[p].local.active) == c.peers[p].local
            && (peer.local.active ==> c.peers[p].local.active)
               && (peer.Stopped() ==> !peer.local.active || c.peers[p].Stopped())
            && (c.peers[p].Stopped() ==> peer.Stopped())
            && !peer.phase.Writing?
            && (peer.phase.Fetch? ==> peer.phase.started == c.Clock(p))
            && (peer.phase.Fetched? ==> c.peers[p].phase == Fetch(peer.phase.started))
            && (peer.phase.Fetched? || peer.phase.ReleaseFetched? ==> peer.phase.found == c.lease)
  {
  }

  /** The remaining steps change one participant and send nothing. */
  lemma InvOwnStep(c: Cluster, choice: Choice)
    requires Inv(c) && OwnChoice(c, choice)
    ensures Inv(Step(c, choice))
  {
    OwnStepShape(c, choice);
    assert PeerOk(c, choice.p) && ReadsOk(c, choice.p) && TimerOk(c, choice.p) && ClaimsOk(c, choice.p);
    InvLocal(c, choice.p, Step(c, choice).peers[choice.p]);
  }

  lemma InvStep(c: Cluster, choice: Choice)
    requires Inv(c) && !Repeats(c, choice)
    ensures Inv(Step(c, choice))
  {
    if Enabled(c, choice) {
      match choice
      case Tick(elapsed) => InvTick(c, elapsed);
      case ReceiveGet(p, stamp) => InvReceiveGet(c, p, stamp);
      case ServeWrite(id, uid, gap) => InvServeWrite(c, id, uid, gap);
      case ReceiveWrite(p, stopRequested) => InvReceiveWrite(c, p, stopRequested);
      case ReceiveReleaseGet(p, stamp) => InvReceiveReleaseGet(c, p, stamp);
      case _ =>
        InvOwnStep(c, choice);
    }
  }

  lemma {:induction false} InvRun(c: Cluster, choices: seq<Choice>)
    requires Inv(c) && RecordsFresh(c, choices)
    ensures Inv(Run(c, choices))
    decreases |choices|
  {
    if choices != [] {
      InvStep(c, choices[0]);
      InvRun(Step(c, choices[0]), choices[1..]);
    }
  }

  // ----- what it gives -----

  /** A participant that considers itself leader is the holder the server has stored. */
  lemma LeaderHoldsLease(start: Cluster, choices: seq<Choice>, p: string)
    requires Initial(start) && RecordsFresh(start, choices)
    requires Run(start, choices).IsLeader(p)
    ensures Run(start, choices).lease.Some? && Run(start, choices).lease.value.spec.holder == p
  {
    InvRun(start, choices);
    var c := Run(start, choices);
    assert ClaimsOk(c, p) && PeerOk(c, p);
  }

  lemma MutualExclusion(start: Cluster, choices: seq<Choice>, p: string, q: string)
    requires Initial(start) && RecordsFresh(start, choices)
    requires Run(start, choices).IsLeader(p) && Run(start, choices).IsLeader(q)
    ensures p == q
  {
    LeaderHoldsLease(start, choices, p);
    LeaderHoldsLease(start, choices, q);
  }

  /** A takeover waits: whoever replaces a holder does so no earlier than that holder's own
      duration after its last write was stored. */
  lemma TakeoverWaits(start: Cluster, choices: seq<Choice>, id: nat, uid: string, gap: nat)
    requires Initial(start) && RecordsFresh(start, choices)
    requires var c := Run(start, choices);
             && id in c.net && Served(c, c.net[id], uid, gap).Some? && c.lease.Some?
             && c.lease.value.spec.holder !in {"", c.net[id].sender}
    ensures var c := Run(start, choices);
            && c.lease.value.spec.duration.Some?
            && c.writtenAt + c.lease.value.spec.duration.value as real <= c.now
            && Served(c, c.net[id], uid, gap).value.spec.holder == c.net[id].sender
            && !c.IsLeader(c.lease.value.spec.holder)
  {
    InvRun(start, choices);
    var c := Run(start, choices);
    var holder := c.lease.value.spec.holder;
    assert WriteOk(c, c.net[id]);
    if holder in c.peers { assert ClaimsOk(c, holder) && PeerOk(c, holder); }
  }

  /** A release clears only the releaser's own ownership, however late it is served. */
  lemma ReleaseClearsOnlyOwn(start: Cluster, choices: seq<Choice>, id: nat, uid: string, gap: nat)
    requires Initial(start) && RecordsFresh(start, choices)
    requires var c := Run(start, choices);
             && id in c.net && c.net[id].spec.holder == "" && Served(c, c.net[id], uid, gap).Some?
    ensures var c := Run(start, choices);
            && c.lease.Some? && c.lease.value.spec.holder == c.net[id].sender
            && c.net[id].sender in c.peers && c.peers[c.net[id].sender].Stopped()
  {
    InvRun(start, choices);
    assert WriteOk(Run(start, choices), Run(start, choices).net[id]);
  }
}
