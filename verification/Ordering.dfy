/** The order of handlers: accepted only when their dependencies leave a single one. */
module Ordering {
  import opened Wrappers
  import opened Sequences

  /** Object identities of the handler and of what it may be called by. */
  type Id = nat

  datatype Node = Node(name: string, self: Id, identity: Id, dependencies: seq<Id>)

  datatype Failure = Duplicate | Unknown(name: string) | Cycle | Ambiguous(ready: seq<Node>)

  /** Everything a dependency on one of the nodes can refer to. */
  function Named(nodes: seq<Node>): set<Id> {
    (set n | n in nodes :: n.self) + (set n | n in nodes :: n.identity)
  }

  predicate Ready(n: Node, completed: set<Id>) { forall d <- n.dependencies :: d in completed }

  function AllReady(remaining: seq<Node>, completed: set<Id>): (r: seq<Node>)
    ensures forall n :: n in r <==> n in remaining && Ready(n, completed)
    ensures NoRepeats(remaining) ==> NoRepeats(r)
  {
    if remaining == [] then []
    else
      var n := |remaining| - 1;
      var rest := AllReady(remaining[..n], completed);
      PrefixNoRepeats(remaining, n);
      if Ready(remaining[n], completed) then AppendFresh(rest, remaining, n); rest + [remaining[n]] else rest
  }

  lemma PrefixNoRepeats<T>(s: seq<T>, n: nat)
    requires n <= |s|
    ensures NoRepeats(s) ==> NoRepeats(s[..n])
  {
    if NoRepeats(s) { forall i | 0 <= i < n ensures s[..n][i] !in s[..n][..i] { assert s[..n][..i] == s[..i]; } }
  }

  lemma AppendFresh<T>(rest: seq<T>, s: seq<T>, n: nat)
    requires n == |s| - 1 && (NoRepeats(s) ==> NoRepeats(rest)) && forall x <- rest :: x in s[..n]
    ensures NoRepeats(s) ==> NoRepeats(rest + [s[n]])
  {
    if NoRepeats(s) { AppendNew(rest, s[n]); }
  }

  // ----- the reference: topological orders -----

  predicate Satisfied(order: seq<Node>, p: nat) requires p < |order| { Ready(order[p], Named(order[..p])) }

  /** Part of an order in which every handler comes after what it depends on. */
  ghost predicate Sequenced(order: seq<Node>) {
    NoRepeats(order) && forall p :: 0 <= p < |order| ==> Satisfied(order, p)
  }

  ghost predicate Topological(nodes: seq<Node>, order: seq<Node>) {
    Sequenced(order) && forall n :: n in order <==> n in nodes
  }

  predicate Distinct(nodes: seq<Node>) { NoRepeats(Identities(nodes)) }

  function Identities(nodes: seq<Node>): seq<Id> { seq(|nodes|, i requires 0 <= i < |nodes| => nodes[i].identity) }

  // ----- what a step of the search knows -----

  /** Every topological order starts like this. */
  ghost predicate Forced(nodes: seq<Node>, ordered: seq<Node>) {
    forall t :: Topological(nodes, t) ==> ordered <= t
  }

  /** Left over: the nodes that are not ordered yet. */
  ghost predicate Splits(nodes: seq<Node>, ordered: seq<Node>, remaining: seq<Node>) {
    && NoRepeats(remaining) && Sequenced(ordered)
    && (forall n :: n in nodes <==> n in ordered || n in remaining)
    && (forall n <- remaining :: n !in ordered)
  }

  /** A topological order goes on with a node that is ready. */
  lemma NextIsReady(nodes: seq<Node>, ordered: seq<Node>, remaining: seq<Node>, t: seq<Node>)
    requires Splits(nodes, ordered, remaining) && remaining != [] && Topological(nodes, t) && ordered <= t
    ensures |ordered| < |t| && t[|ordered|] in AllReady(remaining, Named(ordered))
  {
    var n := |ordered|;
    assert remaining[0] in nodes && remaining[0] !in ordered;
    assert |t| != n || t == ordered;
    assert t[..n] == ordered;
    assert t[n] in nodes && t[n] !in t[..n] && Satisfied(t, n);
  }

  lemma OneReady(nodes: seq<Node>, ordered: seq<Node>, remaining: seq<Node>, node: Node, t: seq<Node>)
    requires Splits(nodes, ordered, remaining) && AllReady(remaining, Named(ordered)) == [node]
    requires Topological(nodes, t) && ordered <= t
    ensures ordered + [node] <= t
  {
    assert remaining != [];
    NextIsReady(nodes, ordered, remaining, t);
    assert t[|ordered|] == node;
  }

  lemma ForcedStep(nodes: seq<Node>, ordered: seq<Node>, remaining: seq<Node>, node: Node)
    requires Splits(nodes, ordered, remaining) && Forced(nodes, ordered)
             && AllReady(remaining, Named(ordered)) == [node]
    ensures Forced(nodes, ordered + [node])
  {
    forall t | Topological(nodes, t) ensures ordered + [node] <= t { OneReady(nodes, ordered, remaining, node, t); }
  }

  lemma Longer<T>(s: seq<T>, t: seq<T>)
    requires NoRepeats(t) && s < t
    ensures exists x :: x in t && x !in s
  {
    assert t[..|s|] == s && t[|s|] in t;
  }

  /** Nothing is left, so the forced start is the whole order. */
  lemma ForcedAll(nodes: seq<Node>, ordered: seq<Node>)
    requires Topological(nodes, ordered) && Forced(nodes, ordered)
    ensures forall t :: Topological(nodes, t) ==> t == ordered
  {
    forall t | Topological(nodes, t) ensures t == ordered {
      if ordered != t { Longer(ordered, t); assert false; }
    }
  }

  lemma SequencedStep(ordered: seq<Node>, node: Node)
    requires Sequenced(ordered) && node !in ordered && Ready(node, Named(ordered))
    ensures Sequenced(ordered + [node])
  {
    AppendNew(ordered, node);
    var next := ordered + [node];
    forall p | 0 <= p < |next| ensures Satisfied(next, p) {
      assert next[..p] == ordered[..p];
      assert p < |ordered| ==> Satisfied(ordered, p);
    }
  }

  /** A node that is ready early can be moved up. */
  function MovedUp(t: seq<Node>, n: nat, m: nat): seq<Node>
    requires n <= m < |t|
  {
    t[..n] + [t[m]] + t[n..m] + t[m + 1..]
  }

  lemma NamedGrows(a: seq<Node>, b: seq<Node>)
    requires forall n <- a :: n in b
    ensures Named(a) <= Named(b)
  {
  }

  /** Where the p-th node of the new order was before. */
  function Before(n: nat, m: nat, p: nat): nat { if p < n || p > m then p else if p == n then m else p - 1 }

  lemma MovedUpAt(t: seq<Node>, n: nat, m: nat, p: nat)
    requires n <= m < |t| && p < |t|
    ensures |MovedUp(t, n, m)| == |t| && Before(n, m, p) < |t| && MovedUp(t, n, m)[p] == t[Before(n, m, p)]
  {
  }

  lemma MovedUpElements(t: seq<Node>, n: nat, m: nat)
    requires n <= m < |t|
    ensures forall x :: x in MovedUp(t, n, m) <==> x in t
  {
    assert t == t[..n] + t[n..m] + [t[m]] + t[m + 1..];
  }

  lemma MovedUpBefore(t: seq<Node>, n: nat, m: nat, p: nat)
    requires n <= m < |t| && p < |t| && p != n
    ensures forall x <- t[..Before(n, m, p)] :: x in MovedUp(t, n, m)[..p]
  {
    var s := MovedUp(t, n, m);
    if p < n {
      assert s[..p] == t[..p];
    } else if p <= m {
      assert s[..p] == t[..n] + [t[m]] + t[n..p - 1] && t[..p - 1] == t[..n] + t[n..p - 1];
    } else {
      assert s[..p] == t[..n] + [t[m]] + t[n..m] + t[m + 1..p] && t[..p] == t[..n] + t[n..m] + [t[m]] + t[m + 1..p];
    }
  }

  lemma MovedUpSequenced(t: seq<Node>, n: nat, m: nat)
    requires Sequenced(t) && n <= m < |t| && Ready(t[m], Named(t[..n]))
    ensures Sequenced(MovedUp(t, n, m))
  {
    var s := MovedUp(t, n, m);
    forall p | 0 <= p < |s| ensures Satisfied(s, p) {
      MovedUpAt(t, n, m, p);
      if p == n {
        assert s[..n] == t[..n];
      } else {
        var q := Before(n, m, p);
        MovedUpBefore(t, n, m, p);
        NamedGrows(t[..q], s[..p]);
        assert Satisfied(t, q);
      }
    }
    forall p | 0 <= p < |s| ensures s[p] !in s[..p] {
      MovedUpAt(t, n, m, p);
      forall r | 0 <= r < p ensures s[r] != s[p] {
        MovedUpAt(t, n, m, r);
        Different(t, Before(n, m, r), Before(n, m, p));
      }
    }
  }

  lemma PrefixElements<T>(s: seq<T>, t: seq<T>)
    requires s <= t
    ensures forall i :: 0 <= i < |s| ==> t[i] in s
  {
    forall i | 0 <= i < |s| ensures t[i] in s { assert t[i] == s[i]; }
  }

  /** Two ready nodes leave two orders, if there is any. */
  lemma AnotherOrder(nodes: seq<Node>, ordered: seq<Node>, remaining: seq<Node>, t: seq<Node>)
    returns (other: seq<Node>)
    requires Splits(nodes, ordered, remaining) && |AllReady(remaining, Named(ordered))| > 1
    requires Topological(nodes, t) && ordered <= t
    ensures Topological(nodes, other) && other != t
  {
    var ready, n := AllReady(remaining, Named(ordered)), |ordered|;
    Different(ready, 0, 1);
    NextIsReady(nodes, ordered, remaining, t);
    var late := if ready[0] == t[n] then ready[1] else ready[0];
    assert late in ready && late in nodes && late !in ordered && t[..n] == ordered;
    var m :| 0 <= m < |t| && t[m] == late;
    PrefixElements(ordered, t);
    other := MovedUp(t, n, m);
    MovedUpSequenced(t, n, m);
    MovedUpElements(t, n, m);
    assert other[n] == late;
  }

  // ----- refusals before the search -----

  function AsSet<T(==)>(s: seq<T>): set<T> { set x | x in s }

  lemma SetOfAppend<T>(s: seq<T>, x: T)
    ensures AsSet(s + [x]) == AsSet(s) + {x}
  {
    assert forall y :: y in s + [x] <==> y in s || y == x;
  }

  lemma {:induction false} SetSize<T>(s: seq<T>)
    ensures |AsSet(s)| <= |s|
    ensures |AsSet(s)| == |s| <==> NoRepeats(s)
  {
    if s != [] {
      var n := |s| - 1;
      SetSize(s[..n]);
      PrefixNoRepeats(s, n);
      assert s[..n] + [s[n]] == s;
      SetOfAppend(s[..n], s[n]);
      if NoRepeats(s[..n]) && s[n] !in s[..n] { AppendNew(s[..n], s[n]); }
    }
  }

  lemma DistinctNodes(nodes: seq<Node>)
    requires Distinct(nodes)
    ensures NoRepeats(nodes)
  {
    forall i | 0 <= i < |nodes| ensures nodes[i] !in nodes[..i] {
      forall j | 0 <= j < i ensures nodes[j] != nodes[i] { Different(Identities(nodes), j, i); }
    }
  }

  predicate AllKnown(nodes: seq<Node>) { forall n <- nodes :: Ready(n, Named(nodes)) }

  /** A dependency on no node leaves no order. */
  lemma UnknownHasNone(nodes: seq<Node>, t: seq<Node>)
    requires !AllKnown(nodes)
    ensures !Topological(nodes, t)
  {
    if Topological(nodes, t) {
      var node :| node in nodes && !Ready(node, Named(nodes));
      var p :| 0 <= p < |t| && t[p] == node;
      assert Satisfied(t, p);
      NamedGrows(t[..p], nodes);
      assert false;
    }
  }

  method FindUnknown(nodes: seq<Node>) returns (found: Option<Node>)
    ensures found.None? <==> AllKnown(nodes)
    ensures found.Some? ==> found.value in nodes && !Ready(found.value, Named(nodes))
  {
    var known := Named(nodes);
    for i := 0 to |nodes|
      invariant forall j :: 0 <= j < i ==> Ready(nodes[j], known)
    {
      if exists d <- nodes[i].dependencies :: d !in known {
        assert !Ready(nodes[i], known) && nodes[i] in nodes;
        return Some(nodes[i]);
      }
    }
    found := None;
  }

  // ----- the search -----

  lemma NoneReady(nodes: seq<Node>, ordered: seq<Node>, remaining: seq<Node>, t: seq<Node>)
    requires Splits(nodes, ordered, remaining) && Forced(nodes, ordered) && remaining != []
    requires AllReady(remaining, Named(ordered)) == []
    ensures !Topological(nodes, t)
  {
    if Topological(nodes, t) {
      NextIsReady(nodes, ordered, remaining, t);
      assert false;
    }
  }

  /** Whatever order there is, there is another one. */
  ghost predicate Doubtful(nodes: seq<Node>) {
    forall t :: Topological(nodes, t) ==> exists other :: Topological(nodes, other) && other != t
  }

  lemma ManyReady(nodes: seq<Node>, ordered: seq<Node>, remaining: seq<Node>)
    requires Splits(nodes, ordered, remaining) && Forced(nodes, ordered)
    requires |AllReady(remaining, Named(ordered))| > 1
    ensures Doubtful(nodes)
  {
    forall t | Topological(nodes, t) ensures exists other :: Topological(nodes, other) && other != t {
      var other := AnotherOrder(nodes, ordered, remaining, t);
    }
  }

  lemma SearchStep(nodes: seq<Node>, ordered: seq<Node>, remaining: seq<Node>, node: Node)
    requires Splits(nodes, ordered, remaining) && Forced(nodes, ordered) && remaining != []
    requires AllReady(remaining, Named(ordered)) == [node]
    ensures node in remaining
    ensures Splits(nodes, ordered + [node], Without(remaining, node)) && Forced(nodes, ordered + [node])
    ensures Named(ordered + [node]) == Named(ordered) + {node.identity, node.self}
    ensures |Without(remaining, node)| < |remaining|
  {
    assert node in AllReady(remaining, Named(ordered));
    SplitsStep(nodes, ordered, remaining, node);
    NamedAppend(ordered, node);
    ForcedStep(nodes, ordered, remaining, node);
  }

  /** Orders nodes that are all different. */
  method Search(nodes: seq<Node>) returns (result: Result<seq<Node>, Failure>)
    requires NoRepeats(nodes)
    ensures result.Ok? ==> Topological(nodes, result.value) && forall t :: Topological(nodes, t) ==> t == result.value
    ensures result.Err? ==> result.error.Cycle? || (result.error.Ambiguous? && |result.error.ready| > 1)
    ensures result.Err? && result.error.Cycle? ==> forall t :: !Topological(nodes, t)
    ensures result.Err? && result.error.Ambiguous? ==> Doubtful(nodes)
  {
    var remaining, completed, ordered := nodes, {}, [];
    while remaining != []
      invariant Splits(nodes, ordered, remaining) && Forced(nodes, ordered) && completed == Named(ordered)
      decreases |remaining|
    {
      var ready := AllReady(remaining, completed);
      if ready == [] {
        forall t { NoneReady(nodes, ordered, remaining, t); }
        return Err(Cycle);
      }
      if |ready| != 1 {
        ManyReady(nodes, ordered, remaining);
        return Err(Ambiguous(ready));
      }
      var node := ready[0];
      assert ready == [node];
      SearchStep(nodes, ordered, remaining, node);
      ordered := ordered + [node];
      completed := completed + {node.identity, node.self};
      remaining := Without(remaining, node);
    }
    ForcedAll(nodes, ordered);
    result := Ok(ordered);
  }

  /** Succeeds exactly when identities are distinct and there is exactly one topological order,
      and returns that one. */
  method Order(nodes: seq<Node>) returns (result: Result<seq<Node>, Failure>)
    ensures result.Ok? ==> Distinct(nodes) && Topological(nodes, result.value) && forall t ::
              Topological(nodes, t) ==> t == result.value
    ensures result.Err? && result.error.Duplicate? <==> !Distinct(nodes)
    ensures result.Err? && result.error.Unknown? <==> Distinct(nodes) && !AllKnown(nodes)
    ensures result.Err? && (result.error.Unknown? || result.error.Cycle?) ==> forall t :: !Topological(nodes, t)
    ensures result.Err? && result.error.Ambiguous? ==> |result.error.ready| > 1 && Doubtful(nodes)
  {
    var identities := set n | n in nodes :: n.identity;
    SetSize(Identities(nodes));
    IdentitySet(nodes);
    if |identities| != |nodes| { return Err(Duplicate); }
    DistinctNodes(nodes);
    var stranger := FindUnknown(nodes);
    if stranger.Some? {
      forall t { UnknownHasNone(nodes, t); }
      return Err(Unknown(stranger.value.name));
    }
    result := Search(nodes);
  }

  lemma IdentitySet(nodes: seq<Node>)
    ensures (set n | n in nodes :: n.identity) == AsSet(Identities(nodes))
  {
    forall x ensures x in (set n | n in nodes :: n.identity) <==> x in Identities(nodes) {
      if x in (set n | n in nodes :: n.identity) {
        var i :| 0 <= i < |nodes| && nodes[i].identity == x;
        assert Identities(nodes)[i] == x;
      }
    }
  }

  lemma NamedAppend(ordered: seq<Node>, node: Node)
    ensures Named(ordered + [node]) == Named(ordered) + {node.identity, node.self}
  {
    assert forall n :: n in ordered + [node] <==> n in ordered || n == node;
    var selves, identities := set n | n in ordered :: n.self, set n | n in ordered :: n.identity;
    assert (set n | n in ordered + [node] :: n.self) == selves + {node.self};
    assert (set n | n in ordered + [node] :: n.identity) == identities + {node.identity};
  }

  lemma SplitsStep(nodes: seq<Node>, ordered: seq<Node>, remaining: seq<Node>, node: Node)
    requires Splits(nodes, ordered, remaining) && node in remaining && Ready(node, Named(ordered))
    ensures Splits(nodes, ordered + [node], Without(remaining, node)) && |Without(remaining, node)| < |remaining|
  {
    var next, rest := ordered + [node], Without(remaining, node);
    WithoutElement(remaining, node);
    SequencedStep(ordered, node);
    WithoutShorter(remaining, node);
    assert forall n :: n in next <==> n in ordered || n == node;
    assert forall n :: n in nodes <==> n in next || n in rest;
  }

  lemma {:induction false} WithoutShorter<T>(s: seq<T>, x: T)
    requires x in s
    ensures |Without(s, x)| < |s|
  {
    if s[0] != x { WithoutShorter(s[1..], x); }
  }
}
