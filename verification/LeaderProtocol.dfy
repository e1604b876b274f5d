/** The election as a distributed protocol: participants, a server holding the Lease, and a
    network on which requests may be lost, served late, or served after their sender gave up.

    A run is any sequence of choices; a choice that is not enabled changes nothing. */
module LeaderProtocol {
  import opened Wrappers
  import opened LeaderElection

  /** Where a participant's code stands. Standby and Lead cover the waits between attempts. */
  datatype Phase =
    | Standby
    | Lead
    | Fetch(started: real)
    | Fetched(started: real, found: Option<Lease>)
    | Writing(started: real, id: nat)
    | Broken
    | Releasing
    | ReleaseFetched(found: Option<Lease>)
    | Finished

  /** `offset` is the participant's monotonic clock minus the common time base; `acquired` says
      whether an attempt has succeeded; `stamps` records the wall-clock stamps it has taken, which
      no step reads. */
  datatype Peer = Peer(
    cfg: Settings,
    offset: real,
    local: Local,
    phase: Phase,
    acquired: bool,
    stamps: set<int>)
  {
    predicate Stopped() { phase.Releasing? || phase.ReleaseFetched? || phase.Finished? }
    predicate WriteSucceededFor(c: Cluster) {
      phase.Writing? && phase.id in c.replies && c.replies[phase.id].Some?
    }
  }

  /** A request on its way to the server: a create (no base) or an update based on a version. */
  datatype Write = Write(sender: string, base: Option<nat>, uid: string, spec: Spec)

  /** `writtenAt` and `history` record when the current Lease was written and every record
      that has ever been stored; no step reads them. */
  datatype Cluster = Cluster(
    now: real,
    peers: map<string, Peer>,
    lease: Option<Lease>,
    writtenAt: real,
    history: set<(string, Spec)>,
    net: map<nat, Write>,
    replies: map<nat, Option<Lease>>,
    nextId: nat)
  {
    function Clock(p: string): real requires p in peers { now + peers[p].offset }
    predicate IsLeader(p: string) { p in peers && IsLeaderAt(peers[p].cfg, peers[p].local, Clock(p)) }
  }

  datatype Choice =
    | Tick(elapsed: real)
    | Begin(p: string)
    | ServeGet(p: string)
    | ReceiveGet(p: string, stamp: int)
    | ServeWrite(id: nat, uid: string, gap: nat)
    | ReceiveWrite(p: string, stopRequested: bool)
    | Abandon(p: string)
    | Break(p: string)
    | Stop(p: string)
    | ServeReleaseGet(p: string)
    | ReceiveReleaseGet(p: string, stamp: int)

  // ----- steps -----

  function With(c: Cluster, p: string, peer: Peer): Cluster { c.(peers := c.peers[p := peer]) }

  function Between(peer: Peer): Phase { if peer.local.active then Lead else Standby }

  /** One more request on the network, awaited by its sender unless it is a release. */
  function Send(c: Cluster, p: string, peer: Peer, w: Write, phase: Phase): Cluster {
    With(c, p, peer.(phase := phase)).(net := c.net[c.nextId := w], nextId := c.nextId + 1)
  }

  function Response(found: Option<Lease>): GetResponse {
    if found.None? then Absent else Present(found.value)
  }

  function StepBegin(c: Cluster, p: string): Cluster
    requires p in c.peers && (c.peers[p].phase.Standby? || c.peers[p].phase.Lead?)
  {
    var peer := c.peers[p];
    match Budget(peer.cfg, peer.local, c.Clock(p))
    case None => With(c, p, peer.(phase := Broken))
    case Some(_) => With(c, p, peer.(phase := Fetch(c.Clock(p))))
  }

  function StepReceiveGet(c: Cluster, p: string, stamp: int): Cluster
    requires p in c.peers && c.peers[p].phase.Fetched?
  {
    var peer := c.peers[p];
    var (local, decision) := AfterGet(peer.cfg, peer.local, Response(peer.phase.found), c.Clock(p), stamp);
    var after := peer.(local := local, stamps := peer.stamps + {stamp});
    match decision
    case Raise(_) => With(c, p, after.(phase := Broken))
    case TryLater => With(c, p, after.(phase := Between(after)))
    case Create(spec) => Send(c, p, after, Write(p, None, "", spec), Writing(peer.phase.started, c.nextId))
    case Update(body) =>
      Send(c, p, after, Write(p, Some(body.version), body.uid, body.spec), Writing(peer.phase.started, c.nextId))
  }

  /** The server creates only an absent Lease and updates only the version the body names. */
  function Served(c: Cluster, w: Write, uid: string, gap: nat): Option<Lease> {
    match w.base
    case None => if c.lease.None? && uid != "" then Some(Lease(uid, 1 + gap, w.spec)) else None
    case Some(v) =>
      if c.lease.Some? && c.lease.value.version == v && c.lease.value.uid == w.uid
      then Some(Lease(w.uid, v + 1 + gap, w.spec)) else None
  }

  function StepServeWrite(c: Cluster, id: nat, uid: string, gap: nat): Cluster
    requires id in c.net
  {
    var result := Served(c, c.net[id], uid, gap);
    var c1 := c.(net := c.net - {id}, replies := c.replies[id := result]);
    if result.None? then c1
    else c1.(lease := result, writtenAt := c.now, history := c.history + {result.value.Record()})
  }

  function StepReceiveWrite(c: Cluster, p: string, stopRequested: bool): Cluster
    requires p in c.peers && c.peers[p].phase.Writing? && c.peers[p].phase.id in c.replies
  {
    var peer := c.peers[p];
    var reply := c.replies[peer.phase.id];
    var response := if reply.Some? then Accepted(reply.value) else WriteStatus(Some(409));
    var (local, outcome) := AfterWrite(peer.local, peer.phase.started, response, c.Clock(p));
    var after := peer.(local := local, acquired := peer.acquired || outcome.Held?);
    match outcome
    case Raised(_) => With(c, p, after.(phase := Broken))
    case NotHeld => With(c, p, after.(phase := Between(after)))
    case Held =>
      if local.active then With(c, p, after.(phase := Lead))
      else if stopRequested then With(c, p, after.(phase := Broken))
      else With(c, p, after.(phase := Lead, local := local.(active := true)))
  }

  function StepReceiveReleaseGet(c: Cluster, p: string, stamp: int): Cluster
    requires p in c.peers && c.peers[p].phase.ReleaseFetched?
  {
    var peer := c.peers[p];
    var after := peer.(stamps := peer.stamps + {stamp});
    match AfterReleaseGet(peer.cfg, peer.local, Response(peer.phase.found), stamp)
    case None => With(c, p, after.(phase := Finished))
    case Some(body) => Send(c, p, after, Write(p, Some(body.version), body.uid, body.spec), Finished)
  }

  predicate Enabled(c: Cluster, choice: Choice) {
    match choice
    case Tick(elapsed) => 0.0 <= elapsed
    case Begin(p) => p in c.peers && (c.peers[p].phase.Standby? || c.peers[p].phase.Lead?)
    case ServeGet(p) => p in c.peers && c.peers[p].phase.Fetch?
    case ReceiveGet(p, _) => p in c.peers && c.peers[p].phase.Fetched?
    case ServeWrite(id, _, _) => id in c.net
    case ReceiveWrite(p, _) => p in c.peers && c.peers[p].phase.Writing? && c.peers[p].phase.id in c.replies
    case Abandon(p) => p in c.peers
      && (c.peers[p].phase.Fetch? || c.peers[p].phase.Fetched? || c.peers[p].phase.Writing?)
    case Break(p) => p in c.peers && !c.peers[p].Stopped()
    case Stop(p) => p in c.peers && !c.peers[p].Stopped()
    case ServeReleaseGet(p) => p in c.peers && c.peers[p].phase.Releasing?
    case ReceiveReleaseGet(p, _) => p in c.peers && c.peers[p].phase.ReleaseFetched?
  }

  /** Break: the callback returned or failed, or the run was cancelled; the participant still
      counts itself active. Stop: the `finally` block clears `_active` and then releases. */
  function Step(c: Cluster, choice: Choice): Cluster {
    if !Enabled(c, choice) then c
    else match choice
      case Tick(elapsed) => c.(now := c.now + elapsed)
      case Begin(p) => StepBegin(c, p)
      case ServeGet(p) => With(c, p, c.peers[p].(phase := Fetched(c.peers[p].phase.started, c.lease)))
      case ReceiveGet(p, stamp) => StepReceiveGet(c, p, stamp)
      case ServeWrite(id, uid, gap) => StepServeWrite(c, id, uid, gap)
      case ReceiveWrite(p, stopRequested) => StepReceiveWrite(c, p, stopRequested)
      case Abandon(p) => With(c, p, c.peers[p].(phase := Between(c.peers[p])))
      case Break(p) => With(c, p, c.peers[p].(phase := Broken))
      case Stop(p) =>
        var peer := c.peers[p];
        var releasing := peer.acquired && peer.local.lease.Some?;
        With(c, p, peer.(local := peer.local.(active := false), phase := if releasing then Releasing else Finished))
      case ServeReleaseGet(p) => With(c, p, c.peers[p].(phase := ReleaseFetched(c.lease)))
      case ReceiveReleaseGet(p, stamp) => StepReceiveReleaseGet(c, p, stamp)
  }

  function Run(c: Cluster, choices: seq<Choice>): Cluster
    decreases |choices|
  {
    if choices == [] then c else Run(Step(c, choices[0]), choices[1..])
  }

  /** Before anybody starts: any Lease may already exist, held by anybody, with any spec. */
  predicate Initial(c: Cluster) {
    && (forall p <- c.peers ::
          var peer := c.peers[p];
          && peer.cfg.Valid() && peer.cfg.identity == p
          && peer.local == INITIAL && peer.phase == Standby && !peer.acquired)
    && c.net == map[] && c.replies == map[] && c.writtenAt <= c.now
    && c.history == (if c.lease.Some? then {c.lease.value.Record()} else {})
    && (c.lease.Some? ==> c.lease.value.Identified())
  }

  // ----- what the safety theorems suppose of a run -----

  /** A write is about to store a record that was stored before. */
  predicate Repeats(c: Cluster, choice: Choice) {
    && choice.ServeWrite? && choice.id in c.net
    && var result := Served(c, c.net[choice.id], choice.uid, choice.gap);
       result.Some? && result.value.Record() in c.history
  }

  /** No stored record ever comes back. */
  predicate RecordsFresh(c: Cluster, choices: seq<Choice>)
    decreases |choices|
  {
    choices == [] || (!Repeats(c, choices[0]) && RecordsFresh(Step(c, choices[0]), choices[1..]))
  }
}
