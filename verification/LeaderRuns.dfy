/** Two concrete runs of the election. One hands leadership over after a crash. The other shows
    that a stored record must not come back: the observed record leaves the resourceVersion out,
    so a renewal that repeats it goes unnoticed and two participants lead at once. */
module LeaderRuns {
  import opened Wrappers
  import opened LeaderElection
  import opened LeaderProtocol
  import opened LeaderStamps
  import opened LeaderProgress

  lemma {:induction false} RunAppend(c: Cluster, choices: seq<Choice>, last: Choice)
    ensures Run(c, choices + [last]) == Step(Run(c, choices), last)
    ensures StampsFresh(c, choices + [last]) <==> StampsFresh(c, choices) && !Reuses(Run(c, choices), last)
    decreases |choices|
  {
    if choices == [] {
      assert Run(c, [last]) == Run(Step(c, last), []);
    } else {
      assert (choices + [last])[0] == choices[0];
      assert (choices + [last])[1..] == choices[1..] + [last];
      RunAppend(Step(c, choices[0]), choices[1..], last);
    }
  }

  lemma Then(start: Cluster, choices: seq<Choice>, c: Cluster, next: Choice)
    returns (longer: seq<Choice>, d: Cluster)
    requires c == Run(start, choices)
    ensures longer == choices + [next] && d == Step(c, next) && d == Run(start, longer)
    ensures StampsFresh(start, longer) <==> StampsFresh(start, choices) && !Reuses(c, next)
  {
    longer, d := choices + [next], Step(c, next);
    RunAppend(start, choices, next);
  }

  function Pair(): (c: Cluster)
    ensures Initial(c) && Remembered(c)
  {
    Cluster(0.0,
            map["a" := Peer(Settings("a", 15, 10.0, 2.0), 0.0, INITIAL, Standby, false, {}),
                "b" := Peer(Settings("b", 15, 10.0, 2.0), 0.0, INITIAL, Standby, false, {})],
            None, 0.0, {}, map[], map[], 0)
  }

  predicate CanRead(c: Cluster, p: string) {
    && p in c.peers && (c.peers[p].phase.Standby? || c.peers[p].phase.Lead?)
    && Budget(c.peers[p].cfg, c.peers[p].local, c.Clock(p)).Some?
    && (c.lease.Some? ==> c.lease.value.Identified())
  }

  /** An attempt begins and the Lease is read. */
  lemma Read(start: Cluster, choices: seq<Choice>, c: Cluster, p: string)
    returns (longer: seq<Choice>, d: Cluster)
    requires c == Run(start, choices) && CanRead(c, p)
    ensures d == Run(start, longer) && (StampsFresh(start, longer) <==> StampsFresh(start, choices))
    ensures d == With(c, p, c.peers[p].(phase := Fetched(c.Clock(p), c.lease)))
  {
    var xs, s := Then(start, choices, c, Begin(p));
    assert s == With(c, p, c.peers[p].(phase := Fetch(c.Clock(p))));
    longer, d := Then(start, xs, s, ServeGet(p));
  }

  function Answer(c: Cluster, p: string, stamp: int): (Local, Decision)
    requires p in c.peers
  {
    AfterGet(c.peers[p].cfg, c.peers[p].local, Response(c.lease), c.Clock(p), stamp)
  }

  function Body(c: Cluster, p: string, stamp: int): Option<Write>
    requires p in c.peers
  {
    match Answer(c, p, stamp).1
    case Create(spec) => Some(Write(p, None, "", spec))
    case Update(body) => Some(Write(p, Some(body.version), body.uid, body.spec))
    case _ => None
  }

  function Reader(c: Cluster, p: string, stamp: int, phase: Phase): Peer
    requires p in c.peers
  {
    var peer := c.peers[p];
    Peer(peer.cfg, peer.offset, Answer(c, p, stamp).0, phase, peer.acquired, peer.stamps + {stamp})
  }

  /** The participant reads the Lease and decides to write. */
  lemma ReadAndSend(start: Cluster, choices: seq<Choice>, c: Cluster, p: string, stamp: int)
    returns (longer: seq<Choice>, d: Cluster)
    requires c == Run(start, choices) && CanRead(c, p) && Body(c, p, stamp).Some?
    ensures d == Run(start, longer)
    ensures StampsFresh(start, longer) <==> StampsFresh(start, choices) && stamp !in c.peers[p].stamps
    ensures var phase := Writing(c.Clock(p), c.nextId);
            d == Send(c, p, Reader(c, p, stamp, phase), Body(c, p, stamp).value, phase)
  {
    var xs, s := Read(start, choices, c, p);
    longer, d := Then(start, xs, s, ReceiveGet(p, stamp));
    SendAfterRead(c, p, stamp);
  }

  lemma SendAfterRead(c: Cluster, p: string, stamp: int)
    requires CanRead(c, p) && Body(c, p, stamp).Some?
    ensures var s := With(c, p, c.peers[p].(phase := Fetched(c.Clock(p), c.lease)));
            var phase := Writing(c.Clock(p), c.nextId);
            StepReceiveGet(s, p, stamp) == Send(c, p, Reader(c, p, stamp, phase), Body(c, p, stamp).value, phase)
  {
    var phase := Writing(c.Clock(p), c.nextId);
    var s := With(c, p, c.peers[p].(phase := Fetched(c.Clock(p), c.lease)));
    assert StepReceiveGet(s, p, stamp).peers == c.peers[p := Reader(c, p, stamp, phase)];
  }

  /** The participant reads the Lease and finds it held. */
  lemma ReadAndWait(start: Cluster, choices: seq<Choice>, c: Cluster, p: string, stamp: int)
    returns (longer: seq<Choice>, d: Cluster)
    requires c == Run(start, choices) && CanRead(c, p) && Answer(c, p, stamp).1.TryLater?
    ensures d == Run(start, longer)
    ensures StampsFresh(start, longer) <==> StampsFresh(start, choices) && stamp !in c.peers[p].stamps
    ensures d == With(c, p, Reader(c, p, stamp, if Answer(c, p, stamp).0.active then Lead else Standby))
  {
    var xs, s := Read(start, choices, c, p);
    longer, d := Then(start, xs, s, ReceiveGet(p, stamp));
  }

  /** The write is served and its success received. */
  lemma WriteAndLead(start: Cluster, choices: seq<Choice>, c: Cluster, p: string, id: nat, uid: string)
    returns (longer: seq<Choice>, d: Cluster)
    requires c == Run(start, choices) && id in c.net && p in c.peers
    requires c.peers[p].phase.Writing? && c.peers[p].phase.id == id && id !in c.replies
    requires Served(c, c.net[id], uid, 0).Some? && Served(c, c.net[id], uid, 0).value.Identified()
    ensures d == Run(start, longer) && (StampsFresh(start, longer) <==> StampsFresh(start, choices))
    ensures var lease := Served(c, c.net[id], uid, 0);
            var peer := c.peers[p];
            var seen := Observed(peer.local, lease.value, c.Clock(p));
            d == With(c, p, peer.(phase := Lead, acquired := true,
                                  local := seen.(lastRenewed := peer.phase.started, active := true)))
                 .(lease := lease, writtenAt := c.now, history := c.history + {lease.value.Record()},
                   net := c.net - {id}, replies := c.replies[id := lease])
  {
    var xs, s := Then(start, choices, c, ServeWrite(id, uid, 0));
    longer, d := Then(start, xs, s, ReceiveWrite(p, false));
  }

  function FirstLease(): Lease { Lease("u", 1, Spec("a", Some(15), 1, 1, Some(0))) }

  function Knowing(p: string, active: bool, phase: Phase): Peer {
    Peer(Settings(p, 15, 10.0, 2.0), 0.0,
         Local(active, 0.0, 0.0, Some(FirstLease().Record()), Some(FirstLease())), phase, active, {1})
  }

  /** "a" acquires a fresh Lease at time zero. */
  lemma FirstLeader() returns (choices: seq<Choice>, c: Cluster)
    ensures c == Run(Pair(), choices) && StampsFresh(Pair(), choices)
    ensures c.now == 0.0 && c.nextId == 1 && c.net == map[]
    ensures c.lease == Some(FirstLease()) && c.replies.Keys == {0}
    ensures c.peers == Pair().peers["a" := Knowing("a", true, Lead)]
  {
    var start := Pair();
    choices, c := ReadAndSend(start, [], start, "a", 1);
    choices, c := WriteAndLead(start, choices, c, "a", 0, "u");
    var none: set<int> := {};
    assert none + {1} == {1};
  }

  /** And "b" sees it held. */
  lemma FirstRound() returns (choices: seq<Choice>, c: Cluster)
    ensures c == Run(Pair(), choices) && StampsFresh(Pair(), choices)
    ensures c.now == 0.0 && c.nextId == 1 && c.net == map[]
    ensures c.lease == Some(FirstLease()) && c.replies.Keys == {0}
    ensures c.peers == map["a" := Knowing("a", true, Lead), "b" := Knowing("b", false, Standby)]
  {
    choices, c := FirstLeader();
    choices, c := ReadAndWait(Pair(), choices, c, "b", 1);
    var none: set<int> := {};
    assert none + {1} == {1};
  }

  /** At 15, "b" still sees the record it first saw at zero, and takes the Lease over. */
  lemma TakeOver(choices: seq<Choice>, c: Cluster) returns (longer: seq<Choice>, d: Cluster)
    requires c == Run(Pair(), choices) && c.now == 15.0 && c.nextId !in c.replies
    requires c.peers.Keys == {"a", "b"} && c.peers["b"] == Knowing("b", false, Standby)
    requires c.lease.Some? && c.lease.value.Identified() && c.lease.value.Record() == FirstLease().Record()
    ensures d == Run(Pair(), longer) && (StampsFresh(Pair(), longer) <==> StampsFresh(Pair(), choices))
    ensures d.now == 15.0 && d.IsLeader("b") && d.peers.Keys == {"a", "b"} && d.peers["a"] == c.peers["a"]
  {
    longer, d := ReadAndSend(Pair(), choices, c, "b", 2);
    longer, d := WriteAndLead(Pair(), longer, d, "b", c.nextId, "");
  }

  /** After a crash of "a" that lets its lease run out, "b" leads and "a" does not. */
  lemma HandOver() returns (choices: seq<Choice>)
    ensures StampsFresh(Pair(), choices)
    ensures var c := Run(Pair(), choices); c.IsLeader("b") && !c.IsLeader("a") && c.now == 15.0
  {
    var xs, c := FirstRound();
    xs, c := Then(Pair(), xs, c, Tick(15.0));
    choices, c := TakeOver(xs, c);
  }

  /** After a release "b" leads in the same moment, without waiting for the lease of "a". */
  lemma HandOverByRelease() returns (choices: seq<Choice>)
    ensures var c := Run(Pair(), choices); c.IsLeader("b") && !c.IsLeader("a") && c.now == 0.0
  {
    var xs, c := FirstRound();
    FreshStampsSuffice(Pair(), xs);
    HandsOver(Pair(), xs, "a", "b", 2, 0);
    var freed := Run(c, Release(c, "a", 2, 0));
    RunSplit(Pair(), xs, Release(c, "a", 2, 0));
    RunSplit(Pair(), xs + Release(c, "a", 2, 0), Attempt(freed, "b", 2, "", 0));
    choices := xs + Release(c, "a", 2, 0) + Attempt(freed, "b", 2, "", 0);
  }

  /** "a" renews at 8 with the stamp of its first write: the stored record stays the same. */
  lemma UnnoticedRenewal() returns (choices: seq<Choice>, c: Cluster)
    ensures c == Run(Pair(), choices) && c.now == 8.0 && c.nextId == 2 && c.replies.Keys == {0, 1}
    ensures c.peers.Keys == {"a", "b"} && c.peers["b"] == Knowing("b", false, Standby)
    ensures c.peers["a"].local.active && c.peers["a"].local.lastRenewed == 8.0
    ensures c.peers["a"].offset == 0.0 && c.peers["a"].cfg.renewDeadline == 10.0
    ensures c.lease == Some(Lease("u", 2, FirstLease().spec))
  {
    choices, c := FirstRound();
    choices, c := Then(Pair(), choices, c, Tick(8.0));
    choices, c := ReadAndSend(Pair(), choices, c, "a", 1);
    choices, c := WriteAndLead(Pair(), choices, c, "a", 1, "");
  }

  /** After a renewal that repeats the stored record, "b" takes over at 15, and both lead. */
  lemma RepeatedRecordBreaksExclusion() returns (choices: seq<Choice>)
    ensures Run(Pair(), choices).IsLeader("a") && Run(Pair(), choices).IsLeader("b")
  {
    var xs, c := UnnoticedRenewal();
    xs, c := Then(Pair(), xs, c, Tick(7.0));
    choices, c := TakeOver(xs, c);
  }
}
