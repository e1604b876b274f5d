/** Where the hypothesis of the safety theorems comes from: a participant that never takes one of
    its own wall-clock stamps twice never brings a stored record back. */
module LeaderStamps {
  import opened Wrappers
  import opened LeaderElection
  import opened LeaderProtocol
  import opened LeaderSafety

  /** A participant is about to take a stamp it has taken before. */
  predicate Reuses(c: Cluster, choice: Choice) {
    && (choice.ReceiveGet? || choice.ReceiveReleaseGet?)
    && Enabled(c, choice) && choice.stamp in c.peers[choice.p].stamps
  }

  predicate StampsFresh(c: Cluster, choices: seq<Choice>)
    decreases |choices|
  {
    choices == [] || (!Reuses(c, choices[0]) && StampsFresh(Step(c, choices[0]), choices[1..]))
  }

  /** A participant that already holds the Lease took the stamp on it. */
  predicate Remembered(c: Cluster) {
    c.lease.Some? && c.lease.value.spec.holder in c.peers ==>
      c.lease.value.spec.renewTime in c.peers[c.lease.value.spec.holder].stamps
  }

  // ----- the invariant -----

  /** Claims carry a stamp of their sender that no stored claim of the sender carries. */
  predicate Fresh(c: Cluster, w: Write) {
    w.spec.holder == w.sender && w.sender in c.peers ==>
      && w.spec.renewTime in c.peers[w.sender].stamps
      && forall r <- c.history :: r.1.holder == w.sender ==> r.1.renewTime != w.spec.renewTime
  }

  predicate Distinguished(v: Write, w: Write) {
    v.sender == w.sender && v.spec.holder == v.sender && w.spec.holder == w.sender ==>
      v.spec.renewTime != w.spec.renewTime
  }

  predicate Taken(c: Cluster, r: (string, Spec)) {
    r.1.holder in c.peers ==> r.1.renewTime in c.peers[r.1.holder].stamps
  }

  predicate StampInv(c: Cluster) {
    && (forall r <- c.history :: Taken(c, r))
    && (forall i <- c.net :: Fresh(c, c.net[i]))
    && (forall i <- c.net, j <- c.net :: i != j ==> Distinguished(c.net[i], c.net[j]))
  }

  predicate StampsGrow(c: Cluster, d: Cluster) {
    c.peers.Keys == d.peers.Keys && forall p <- c.peers :: c.peers[p].stamps <= d.peers[p].stamps
  }

  /** Steps that send and store nothing. */
  lemma QuietStep(c: Cluster, d: Cluster)
    requires StampInv(c) && StampsGrow(c, d)
    requires d.history == c.history && d.net == c.net
    ensures StampInv(d)
  {
    forall r <- d.history ensures Taken(d, r) { assert Taken(c, r); }
    forall i <- d.net ensures Fresh(d, d.net[i]) { assert Fresh(c, c.net[i]); }
  }

  /** A request with a stamp new to its sender. */
  lemma SendingStep(c: Cluster, p: string, peer: Peer, w: Write, phase: Phase)
    requires Inv(c) && StampInv(c) && p in c.peers && w.sender == p
    requires w.spec.holder in {"", p} && w.spec.renewTime !in c.peers[p].stamps
    requires peer.stamps == c.peers[p].stamps + {w.spec.renewTime}
    ensures StampInv(Send(c, p, peer, w, phase))
  {
    var d := Send(c, p, peer, w, phase);
    assert c.nextId !in c.net;
    assert forall r <- c.history :: Taken(c, r);
    forall i <- d.net ensures Fresh(d, d.net[i]) {
      if i != c.nextId { assert Fresh(c, c.net[i]); }
    }
    forall i <- d.net, j <- d.net | i != j ensures Distinguished(d.net[i], d.net[j]) {
      if i == c.nextId { assert Fresh(c, c.net[j]); }
      else if j == c.nextId { assert Fresh(c, c.net[i]); }
      else { assert Distinguished(c.net[i], c.net[j]); }
    }
  }

  lemma ReceiveGetStep(c: Cluster, p: string, stamp: int)
    requires Inv(c) && StampInv(c)
    requires Enabled(c, ReceiveGet(p, stamp)) && !Reuses(c, ReceiveGet(p, stamp))
    ensures StampInv(Step(c, ReceiveGet(p, stamp)))
  {
    var peer := c.peers[p];
    var (local, decision) := AfterGet(peer.cfg, peer.local, Response(peer.phase.found), c.Clock(p), stamp);
    var after := peer.(local := local, stamps := peer.stamps + {stamp});
    var phase := Writing(peer.phase.started, c.nextId);
    assert PeerOk(c, p);
    match decision
    case Create(spec) => SendingStep(c, p, after, Write(p, None, "", spec), phase);
    case Update(body) => SendingStep(c, p, after, Write(p, Some(body.version), body.uid, body.spec), phase);
    case _ => QuietStep(c, Step(c, ReceiveGet(p, stamp)));
  }

  lemma ReceiveReleaseGetStep(c: Cluster, p: string, stamp: int)
    requires Inv(c) && StampInv(c)
    requires Enabled(c, ReceiveReleaseGet(p, stamp)) && !Reuses(c, ReceiveReleaseGet(p, stamp))
    ensures StampInv(Step(c, ReceiveReleaseGet(p, stamp)))
  {
    var peer := c.peers[p];
    var after := peer.(stamps := peer.stamps + {stamp});
    match AfterReleaseGet(peer.cfg, peer.local, Response(peer.phase.found), stamp)
    case None => QuietStep(c, Step(c, ReceiveReleaseGet(p, stamp)));
    case Some(body) =>
      SendingStep(c, p, after, Write(p, Some(body.version), body.uid, body.spec), Finished);
  }

  /** A claim is told apart by its stamp; a release by the count of the transition it undoes. */
  lemma ServedFresh(c: Cluster, id: nat, uid: string, gap: nat)
    requires Inv(c) && StampInv(c) && id in c.net
    ensures !Repeats(c, ServeWrite(id, uid, gap))
  {
    assert WriteOk(c, c.net[id]) && Fresh(c, c.net[id]);
  }

  lemma ServeStep(c: Cluster, id: nat, uid: string, gap: nat)
    requires Inv(c) && StampInv(c) && id in c.net
    ensures StampInv(StepServeWrite(c, id, uid, gap))
  {
    var d := StepServeWrite(c, id, uid, gap);
    var w := c.net[id];
    assert WriteOk(c, w) && Fresh(c, w) && "" !in c.peers;
    forall r <- d.history ensures Taken(d, r) { if r in c.history { assert Taken(c, r); } }
    forall i <- d.net ensures Fresh(d, d.net[i]) { assert Fresh(c, c.net[i]) && Distinguished(c.net[i], w); }
    forall i <- d.net, j <- d.net | i != j ensures Distinguished(d.net[i], d.net[j]) {
      assert Distinguished(c.net[i], c.net[j]);
    }
  }

  lemma OwnStep(c: Cluster, choice: Choice)
    requires StampInv(c) && OwnChoice(c, choice)
    ensures StampInv(Step(c, choice))
  {
    assert Step(c, choice).peers[choice.p].stamps == c.peers[choice.p].stamps;
    OwnStepShape(c, choice);
    QuietStep(c, Step(c, choice));
  }

  lemma ReceiveWriteStep(c: Cluster, p: string, stopRequested: bool)
    requires StampInv(c) && Enabled(c, ReceiveWrite(p, stopRequested))
    ensures StampInv(StepReceiveWrite(c, p, stopRequested))
  {
    ReceiveWriteShape(c, p, stopRequested);
    QuietStep(c, StepReceiveWrite(c, p, stopRequested));
  }

  lemma StampStep(c: Cluster, choice: Choice)
    requires Inv(c) && StampInv(c) && !Reuses(c, choice)
    ensures !Repeats(c, choice) && StampInv(Step(c, choice))
  {
    if Enabled(c, choice) {
      match choice
      case Tick(elapsed) => QuietStep(c, Step(c, choice));
      case ReceiveGet(p, stamp) => ReceiveGetStep(c, p, stamp);
      case ReceiveReleaseGet(p, stamp) => ReceiveReleaseGetStep(c, p, stamp);
      case ServeWrite(id, uid, gap) =>
        ServedFresh(c, id, uid, gap);
        ServeStep(c, id, uid, gap);
      case ReceiveWrite(p, stopRequested) => ReceiveWriteStep(c, p, stopRequested);
      case _ => OwnStep(c, choice);
    }
  }

  lemma {:induction false} StampRun(c: Cluster, choices: seq<Choice>)
    requires Inv(c) && StampInv(c) && StampsFresh(c, choices)
    ensures RecordsFresh(c, choices)
    decreases |choices|
  {
    if choices != [] {
      StampStep(c, choices[0]);
      InvStep(c, choices[0]);
      StampRun(Step(c, choices[0]), choices[1..]);
    }
  }

  /** Stamps that no participant repeats are enough for every safety theorem. */
  lemma FreshStampsSuffice(start: Cluster, choices: seq<Choice>)
    requires Initial(start) && Remembered(start) && StampsFresh(start, choices)
    ensures RecordsFresh(start, choices)
  {
    StampRun(start, choices);
  }
}
