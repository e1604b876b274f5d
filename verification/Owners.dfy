/** Which Pods belong to a workload: a memoised search up the owner references. */
module Owners {
  import opened Wrappers
  import opened Sequences
  import opened OwnerLinks

  // ----- the memo -----

  /** Every UID that a reference can have, for the Pod and what the servers can return. */
  function Uids(env: Env, pod: Meta): set<string> {
    (set r | r in pod.refs :: r.uid)
    + (set u, r | u in env.answers && env.answers[u].Object? && r in env.answers[u].meta.refs :: r.uid)
  }

  function Universe(env: Env, pod: Meta): set<(string, Option<string>)> {
    set uid, ns | uid in Uids(env, pod) && ns in {pod.namespace, None} :: (uid, ns)
  }

  /** Room in a finite set for everything that following references can mark. */
  predicate Housed(universe: set<Seen>, m: Meta) {
    forall r <- m.refs :: (r.uid, m.namespace) in universe && (r.uid, None) in universe
  }

  type Seen = (string, Option<string>)

  /** Both sets are closed under ownership. */
  ghost predicate Covers(env: Env, universe: set<Seen>, reach: iset<Meta>) {
    forall m, r, owner {:trigger Edge(env, m, r, owner)} ::
      Edge(env, m, r, owner) ==> (m in reach ==> owner in reach) && (Housed(universe, m) ==> Housed(universe, owner))
  }

  lemma OwnerHoused(env: Env, pod: Meta, m: Meta, r: Ref, owner: Meta)
    requires Housed(Universe(env, pod), m) && Edge(env, m, r, owner)
    ensures Housed(Universe(env, pod), owner)
  {
    var mapping := MappingOf(env, Kind(r.apiVersion, r.kind)).value.value;
    var url := OwnerUrl(env, r, m.namespace, mapping).value;
    assert url in env.answers && env.answers[url].Object? && owner.refs == env.answers[url].meta.refs;
    assert (r.uid, m.namespace) in Universe(env, pod);
    forall s <- owner.refs
      ensures (s.uid, owner.namespace) in Universe(env, pod) && (s.uid, None) in Universe(env, pod)
    {
      assert s.uid in Uids(env, pod);
    }
  }

  lemma UniverseCovers(env: Env, pod: Meta, reach: iset<Meta>)
    requires reach == iset m | Reachable(env, pod, m)
    ensures Covers(env, Universe(env, pod), reach) && Housed(Universe(env, pod), pod) && pod in reach
  {
    ReachSelf(env, pod);
    forall m, r, owner | Edge(env, m, r, owner)
      ensures (m in reach ==> owner in reach) && (Housed(Universe(env, pod), m) ==> Housed(Universe(env, pod), owner))
    {
      if m in reach { ReachStep(env, pod, m, r, owner); }
      if Housed(Universe(env, pod), m) { OwnerHoused(env, pod, m, r, owner); }
    }
  }

  // ----- what the search knows -----

  /** The reference that marked a UID, the object that had it, and what it led to. */
  datatype Mark = Mark(dependent: Meta, ref: Ref)

  ghost predicate Marks(env: Env, reach: iset<Meta>, key: Seen, mark: Mark, seen: set<Meta>) {
    && mark.ref.uid == key.0 && mark.dependent in reach && mark.ref in mark.dependent.refs
    && Resolved(env, mark.ref, key.1).Ok?
    && (Resolved(env, mark.ref, key.1).value.Some? ==> Resolved(env, mark.ref, key.1).value.value in seen)
  }

  ghost predicate Searching(env: Env, universe: set<Seen>, reach: iset<Meta>,
                            pending: seq<Meta>, marked: map<Seen, Mark>, seen: set<Meta>) {
    && (forall m <- pending :: m in seen)
    && (forall m <- seen :: m in reach && Housed(universe, m))
    && marked.Keys <= universe
    && (forall key <- marked :: Marks(env, reach, key, marked[key], seen))
  }

  function AsSet(owner: Option<Meta>): set<Meta> { if owner.Some? then {owner.value} else {} }

  function Pushed(pending: seq<Meta>, owner: Option<Meta>): (r: seq<Meta>)
    ensures pending <= r && forall m :: m in r <==> m in pending || m in AsSet(owner)
  {
    if owner.Some? then pending + [owner.value] else pending
  }

  lemma MarksMore(env: Env, reach: iset<Meta>, key: Seen, mark: Mark, seen: set<Meta>, more: set<Meta>)
    requires Marks(env, reach, key, mark, seen) && seen <= more
    ensures Marks(env, reach, key, mark, more)
  {
  }

  lemma FollowStep(env: Env, universe: set<Seen>, reach: iset<Meta>,
                   pending: seq<Meta>, marked: map<Seen, Mark>, seen: set<Meta>,
                   m: Meta, r: Ref, owner: Option<Meta>)
    requires Searching(env, universe, reach, pending, marked, seen) && Covers(env, universe, reach)
    requires m in seen && r in m.refs && r.uid != "" && Resolved(env, r, m.namespace) == Ok(owner)
    ensures Searching(env, universe, reach, Pushed(pending, owner),
                      marked[(r.uid, m.namespace) := Mark(m, r)], seen + AsSet(owner))
  {
    if owner.Some? { assert Edge(env, m, r, owner.value); }
    var seen', key := seen + AsSet(owner), (r.uid, m.namespace);
    var marked' := marked[key := Mark(m, r)];
    forall k <- marked' ensures Marks(env, reach, k, marked'[k], seen') {
      if k != key { MarksMore(env, reach, k, marked[k], seen, seen'); }
    }
  }

  predicate AllMarked(marked: map<Seen, Mark>, m: Meta) {
    forall r <- m.refs :: r.uid != "" ==> (r.uid, m.namespace) in marked
  }

  /** A finished search has seen everything reachable. */
  lemma SearchedAll(env: Env, pod: Meta, reach: iset<Meta>, marked: map<Seen, Mark>, seen: set<Meta>)
    requires reach == (iset m | Reachable(env, pod, m)) && Agreeing(env, pod) && pod in seen
    requires Searching(env, Universe(env, pod), reach, [], marked, seen) && forall m <- seen :: AllMarked(marked, m)
    ensures forall m :: Reachable(env, pod, m) ==> m in seen
  {
    forall m, owner | (m, owner) in Ownership(env) && m in seen ensures owner in seen {
      var r :| Edge(env, m, r, owner);
      assert AllMarked(marked, m);
      var key := (r.uid, m.namespace);
      assert Marks(env, reach, key, marked[key], seen);
      assert marked[key].ref == r;
    }
    forall m | Reachable(env, pod, m) ensures m in seen {
      var n: nat :| Chain(Ownership(env), pod, m, n);
      ClosedChain(Ownership(env), seen, pod, m, n);
    }
  }

  /** What has been seen either waits on the stack or was checked and followed. */
  ghost predicate Checked(target: Target, pending: seq<Meta>, seen: set<Meta>, marked: map<Seen, Mark>) {
    forall m <- seen :: m in pending || (!HasTarget(target, m) && AllMarked(marked, m))
  }

  lemma MarkedStays(m: Meta, had: map<Seen, Mark>, marked: map<Seen, Mark>)
    requires AllMarked(had, m) && had.Keys <= marked.Keys
    ensures AllMarked(marked, m)
  {
  }

  /** Looking at the top of the stack. */
  lemma LookedAt(target: Target, m: Meta, before: seq<Meta>, pending: seq<Meta>, known: set<Meta>, seen: set<Meta>,
                 had: map<Seen, Mark>, marked: map<Seen, Mark>)
    requires before != [] && m == before[|before| - 1] && Checked(target, before, known, had)
    requires !HasTarget(target, m) && AllMarked(marked, m) && had.Keys <= marked.Keys
    requires (forall o <- before[..|before| - 1] :: o in pending) && forall o <- seen - known :: o in pending
    ensures Checked(target, pending, seen, marked)
  {
    forall o <- seen ensures o in pending || (!HasTarget(target, o) && AllMarked(marked, o)) {
      if o in known && o !in before { MarkedStays(o, had, marked); }
      assert o in before ==> o in before[..|before| - 1] || o == m;
    }
  }

  class OwnerTraversal {
    const env: Env
    const target: Target
    var responses: map<Url, Answer>
    var mappings: map<Kind, Option<Mapping>>
    /** The requests made so far, in order. */
    var requests: seq<Url>

    /** The memo only repeats what the servers answered, and no request is made twice. */
    ghost predicate Valid() reads this {
      && (forall u <- responses :: responses[u] == env.Answered(u) && !responses[u].Failing?)
      && (forall k <- mappings :: Ok(mappings[k]) == MappingOf(env, k))
      && NoRepeats(requests) && forall u :: u in requests <==> u in responses
    }

    constructor (env: Env, target: Target)
      requires target.uid != ""
      ensures Valid() && this.env == env && this.target == target
    {
      this.env, this.target := env, target;
      responses, mappings, requests := map[], map[], [];
    }

    method Get(url: Url) returns (answer: Result<Answer, Failure>)
      requires Valid()
      modifies this
      ensures Valid()
      ensures answer == if env.Answered(url).Failing? then Err(RequestFailed) else Ok(env.Answered(url))
    {
      if url !in responses {
        var response := env.Answered(url);
        if response.Failing? { return Err(RequestFailed); }
        AppendNew(requests, url);
        responses := responses[url := response];
        requests := requests + [url];
      }
      answer := Ok(responses[url]);
    }

    method Mapped(kind: Kind) returns (mapping: Result<Option<Mapping>, Failure>)
      requires Valid()
      modifies this
      ensures Valid() && mapping == MappingOf(env, kind)
    {
      if kind !in mappings {
        if kind in env.known {
          mappings := mappings[kind := Some(env.known[kind])];
        } else {
          if !env.valid(kind.apiVersion) { return Err(InvalidVersion); }
          var discovery := Get(Discovery(kind.apiVersion));
          if discovery.Err? { return Err(discovery.error); }
          var matches := Matches(if discovery.value.Resources? then discovery.value.list else [], kind.kind);
          if |matches| > 1 { return Err(AmbiguousMapping); }
          mappings := mappings[kind := if matches == [] then None
          else Some(Mapping(matches[0].name, matches[0].namespaced))];
        }
      }
      mapping := Ok(mappings[kind]);
    }

    /** Follows one reference through the memo. */
    method Follow(ref: Ref, namespace: Option<string>) returns (owner: Result<Option<Meta>, Failure>)
      requires Valid()
      modifies this
      ensures Valid() && owner == Resolved(env, ref, namespace)
      ensures forall o :: owner == Ok(Some(o)) <==> Verified(env, ref, namespace, o)
      ensures forall e :: owner == Err(e) <==> FailsWith(env, ref, namespace, e)
    {
      forall o ensures Resolved(env, ref, namespace) == Ok(Some(o)) <==> Verified(env, ref, namespace, o) {
        ResolvedExact(env, ref, namespace, o);
      }
      forall e ensures Resolved(env, ref, namespace) == Err(e) <==> FailsWith(env, ref, namespace, e) {
        FailureExact(env, ref, namespace, e);
      }
      var mapping := Mapped(Kind(ref.apiVersion, ref.kind));
      if mapping.Err? { return Err(mapping.error); }
      if mapping.value.None? { return Ok(None); }
      var Mapping(plural, namespaced) := mapping.value.value;
      if namespaced && namespace.None? { return Ok(None); }
      var url := OwnerUrl(env, ref, namespace, mapping.value.value);
      if url.Err? { return Err(url.error); }
      var answer := Get(url.value);
      if answer.Err? { return Err(answer.error); }
      if !answer.value.Object? || answer.value.meta.uid != ref.uid { return Ok(None); }
      owner := Ok(Some(answer.value.meta.(namespace := if namespaced then namespace else None)));
    }
  
    /** Follows the references of one object that were not followed before. */
    method Expand(m: Meta, pending: seq<Meta>, visited: set<Seen>,
                  ghost universe: set<Seen>, ghost reach: iset<Meta>, ghost marked: map<Seen, Mark>,
                  ghost seen: set<Meta>)
      returns (failure: Option<Failure>, stack: seq<Meta>, visited': set<Seen>, ghost marked': map<Seen, Mark>,
               ghost seen': set<Meta>)
      requires Valid() && Searching(env, universe, reach, pending, marked, seen) && Covers(env, universe, reach)
      requires m in seen && marked.Keys == visited
      modifies this
      ensures Valid()
      ensures failure.Some? ==> Stuck(env, m, failure.value)
      ensures failure.None? ==>
                Searching(env, universe, reach, stack, marked', seen') && marked'.Keys == visited'
                && AllMarked(marked', m)
      ensures seen <= seen' && visited <= visited' && (visited' == visited ==> stack == pending)
      ensures (forall o <- pending :: o in stack) && forall o <- seen' - seen :: o in stack
    {
      stack, visited', marked', seen', failure := pending, visited, marked, seen, None;
      for i := 0 to |m.refs|
        invariant Valid() && Searching(env, universe, reach, stack, marked', seen') && marked'.Keys == visited'
        invariant forall j :: 0 <= j < i && m.refs[j].uid != "" ==> (m.refs[j].uid, m.namespace) in visited'
        invariant seen <= seen' && visited <= visited' && (visited' == visited ==> stack == pending)
        invariant (forall o <- pending :: o in stack) && forall o <- seen' - seen :: o in stack
      {
        var ref := m.refs[i];
        if ref.uid != "" && (ref.uid, m.namespace) !in visited' {
          var owner := Follow(ref, m.namespace);
          if owner.Err? { failure := Some(owner.error); return; }
          FollowStep(env, universe, reach, stack, marked', seen', m, ref, owner.value);
          stack := Pushed(stack, owner.value);
          visited' := visited' + {(ref.uid, m.namespace)};
          marked', seen' := marked'[(ref.uid, m.namespace) := Mark(m, ref)], seen' + AsSet(owner.value);
        }
      }
    }

    /** One object from the stack: it names the target, or its references are followed. */
    method Look(stack: seq<Meta>, visited: set<Seen>,
                ghost universe: set<Seen>, ghost reach: iset<Meta>, ghost marked: map<Seen, Mark>,
                ghost seen: set<Meta>)
      returns (answer: Option<Result<bool, Failure>>, pending: seq<Meta>, visited': set<Seen>,
               ghost marked': map<Seen, Mark>, ghost seen': set<Meta>)
      requires Valid() && Covers(env, universe, reach) && stack != [] && marked.Keys == visited
      requires Searching(env, universe, reach, stack, marked, seen) && Checked(target, stack, seen, marked)
      modifies this
      ensures Valid() && answer != Some(Ok(false))
      ensures answer == Some(Ok(true)) ==> exists m :: m in reach && HasTarget(target, m)
      ensures answer.Some? && answer.value.Err? ==>
                exists m :: m in reach && Stuck(env, m, answer.value.error)
      ensures answer.None? ==>
                && Searching(env, universe, reach, pending, marked', seen') && Checked(target, pending, seen', marked')
                && marked'.Keys == visited' && seen <= seen'
                && visited <= visited' && (visited' == visited ==> |pending| < |stack|)
    {
      var m := stack[|stack| - 1];
      assert m in stack && m in seen;
      pending, visited', marked', seen', answer := stack[..|stack| - 1], visited, marked, seen, None;
      if exists r <- m.refs :: IsTarget(target, r, m.namespace) {
        assert HasTarget(target, m);
        return Some(Ok(true)), pending, visited', marked', seen';
      }
      var failure;
      failure, pending, visited', marked', seen' := Expand(m, pending, visited, universe, reach, marked, seen);
      if failure.Some? { return Some(Err(failure.value)), pending, visited', marked', seen'; }
      LookedAt(target, m, stack, pending, seen, seen', marked, marked');
    }

    /** The search: a stack of objects to look at, and the references already followed. */
    method Search(pod: Meta, ghost universe: set<Seen>, ghost reach: iset<Meta>)
      returns (found: Result<bool, Failure>, ghost marked: map<Seen, Mark>, ghost seen: set<Meta>)
      requires Valid() && Covers(env, universe, reach) && Housed(universe, pod) && pod in reach
      modifies this
      ensures Valid()
      ensures found == Ok(true) ==> exists m :: m in reach && HasTarget(target, m)
      ensures found == Ok(false) ==> pod in seen && Searching(env, universe, reach, [], marked, seen)
      ensures found == Ok(false) ==> Checked(target, [], seen, marked)
      ensures found.Err? ==> exists m :: m in reach && Stuck(env, m, found.error)
    {
      var pending: seq<Meta>, visited: set<Seen> := [pod], {};
      marked, seen := map[], {pod};
      while pending != []
        invariant Valid() && Searching(env, universe, reach, pending, marked, seen) && marked.Keys == visited
        invariant Checked(target, pending, seen, marked) && pod in seen
        decreases universe - visited, |pending|
      {
        ghost var start := visited;
        var answer;
        answer, pending, visited, marked, seen := Look(pending, visited, universe, reach, marked, seen);
        if answer.Some? { return answer.value, marked, seen; }
        assert start != visited ==> universe - visited < universe - start;
      }
      found := Ok(false);
    }

    /** Whether the Pod belongs to the target. */
    method Trace(pod: Meta) returns (found: Result<bool, Failure>)
      requires Valid()
      modifies this
      ensures Valid()
      ensures found == Ok(true) ==> exists path :: Leads(env, target, pod, path)
      ensures found == Ok(false) && Agreeing(env, pod) ==> !exists path :: Leads(env, target, pod, path)
      ensures found.Err? ==> exists path :: Fails(env, pod, path, found.error)
    {
      ghost var reach := iset m | Reachable(env, pod, m);
      UniverseCovers(env, pod, reach);
      ghost var marked, seen;
      found, marked, seen := Search(pod, Universe(env, pod), reach);
      OwnedExact(env, target, pod);
      if found == Ok(false) && Agreeing(env, pod) { SearchedAll(env, pod, reach, marked, seen); }
      if found.Err? { FailedOnPath(env, pod, found.error); }
    }
  }
}
