/** What an owner reference stands for, in terms of what the servers answer, and who is owned by
    whom along a chain of them. */
module OwnerLinks {
  import opened Wrappers

  datatype Ref = Ref(uid: string, apiVersion: string, kind: string, name: string)

  datatype Meta = Meta(uid: string, namespace: Option<string>, refs: seq<Ref>)

  datatype Kind = Kind(apiVersion: string, kind: string)

  datatype Resource = Resource(name: string, kind: string, namespaced: bool)

  datatype Mapping = Mapping(plural: string, namespaced: bool)

  datatype Url =
    | Discovery(apiVersion: string)
    | Owner(apiVersion: string, namespace: Option<string>, plural: string, name: string)

  /** A 404 is Missing; every other failure is Failing. */
  datatype Answer = Resources(list: seq<Resource>) | Object(meta: Meta) | Missing | Failing

  datatype Failure = InvalidVersion | InvalidSegment | AmbiguousMapping | RequestFailed

  /** What the servers answer during one discovery, kinds mapped beforehand, valid apiVersions. */
  datatype Env = Env(answers: map<Url, Answer>, known: map<Kind, Mapping>, valid: string -> bool)
  {
    function Answered(url: Url): Answer { if url in answers then answers[url] else Missing }
  }

  datatype Target = Target(uid: string, name: string, kind: string, apiVersion: string, namespace: Option<string>)

  /** The part of an apiVersion before its last slash. */
  function Group(apiVersion: string): string {
    if apiVersion == "" then ""
    else
      var n := |apiVersion| - 1;
      if apiVersion[n] == '/' then apiVersion[..n] else Group(apiVersion[..n])
  }

  predicate IsTarget(target: Target, ref: Ref, namespace: Option<string>) {
    && ref.uid == target.uid && ref.name == target.name && ref.kind == target.kind
    && Group(ref.apiVersion) == Group(target.apiVersion)
    && (target.namespace.None? || target.namespace == namespace)
  }

  predicate Segment(value: string) { value != "" && value != "." && value != ".." && '/' !in value && '%' !in value }

  // ----- the reference: following one owner reference -----

  function Matches(list: seq<Resource>, kind: string): seq<Resource> {
    if list == [] then []
    else (if list[0].kind == kind && '/' !in list[0].name then [list[0]] else []) + Matches(list[1..], kind)
  }

  function Discovered(answer: Answer, kind: string): Result<Option<Mapping>, Failure> {
    var matches := Matches(if answer.Resources? then answer.list else [], kind);
    if answer.Failing? then Err(RequestFailed)
    else if |matches| > 1 then Err(AmbiguousMapping)
    else Ok(if matches == [] then None else Some(Mapping(matches[0].name, matches[0].namespaced)))
  }

  function MappingOf(env: Env, kind: Kind): Result<Option<Mapping>, Failure> {
    if kind in env.known then Ok(Some(env.known[kind]))
    else if !env.valid(kind.apiVersion) then Err(InvalidVersion)
    else Discovered(env.Answered(Discovery(kind.apiVersion)), kind.kind)
  }

  function OwnerUrl(env: Env, ref: Ref, namespace: Option<string>, mapping: Mapping): Result<Url, Failure> {
    if mapping.namespaced && namespace.Some? && !Segment(namespace.value) then Err(InvalidSegment)
    else if !env.valid(ref.apiVersion) then Err(InvalidVersion)
    else if !Segment(mapping.plural) || !Segment(ref.name) then Err(InvalidSegment)
    else Ok(Owner(ref.apiVersion, if mapping.namespaced then namespace else None, mapping.plural, ref.name))
  }

  /** The owner that a reference of an object in a namespace stands for, if it still exists. */
  function Resolved(env: Env, ref: Ref, namespace: Option<string>): Result<Option<Meta>, Failure> {
    match MappingOf(env, Kind(ref.apiVersion, ref.kind))
    case Err(e) => Err(e)
    case Ok(None) => Ok(None)
    case Ok(Some(mapping)) =>
      if mapping.namespaced && namespace.None? then Ok(None)
      else match OwnerUrl(env, ref, namespace, mapping)
        case Err(e) => Err(e)
        case Ok(url) => OwnerOf(env.Answered(url), ref.uid, if mapping.namespaced then namespace else None)
  }

  function OwnerOf(answer: Answer, uid: string, scope: Option<string>): Result<Option<Meta>, Failure> {
    match answer
    case Failing => Err(RequestFailed)
    case Object(meta) => Ok(if meta.uid == uid then Some(meta.(namespace := scope)) else None)
    case _ => Ok(None)
  }

  // ----- what following a reference means, in terms of the servers' answers -----

  predicate Offers(resource: Resource, kind: string) { resource.kind == kind && '/' !in resource.name }

  /** Exactly one of the discovered resources has the kind, and is not a subresource. */
  ghost predicate OnlyOffer(list: seq<Resource>, kind: string, mapping: Mapping) {
    exists i :: 0 <= i < |list| && Offers(list[i], kind) && mapping == Mapping(list[i].name, list[i].namespaced)
      && forall j :: 0 <= j < |list| && j != i ==> !Offers(list[j], kind)
  }

  ghost predicate TwoOffers(list: seq<Resource>, kind: string) {
    exists i, j :: 0 <= i < j < |list| && Offers(list[i], kind) && Offers(list[j], kind)
  }

  /** The resource that the references of a kind go to: the known one, or the one discovered. */
  ghost predicate MapsTo(env: Env, kind: Kind, mapping: Mapping) {
    if kind in env.known then env.known[kind] == mapping
    else
      && env.valid(kind.apiVersion) && Discovery(kind.apiVersion) in env.answers
      && env.answers[Discovery(kind.apiVersion)].Resources?
      && OnlyOffer(env.answers[Discovery(kind.apiVersion)].list, kind.kind, mapping)
  }

  predicate PathPart(s: string) {
    s != "" && s != "." && s != ".." && forall c <- s :: c != '/' && c != '%'
  }

  /** The reference can be asked for: its resource is known, and its path is well formed. */
  ghost predicate Addressed(env: Env, r: Ref, namespace: Option<string>, mapping: Mapping) {
    && MapsTo(env, Kind(r.apiVersion, r.kind), mapping)
    && (mapping.namespaced ==> namespace.Some? && PathPart(namespace.value))
    && env.valid(r.apiVersion) && PathPart(mapping.plural) && PathPart(r.name)
  }

  function Scope(mapping: Mapping, namespace: Option<string>): Option<string> {
    if mapping.namespaced then namespace else None
  }

  /** The server still has the object that the reference names, under the very UID it names. */
  ghost predicate Verified(env: Env, r: Ref, namespace: Option<string>, owner: Meta) {
    exists mapping, meta :: VerifiedAt(env, r, namespace, owner, mapping, meta)
  }

  ghost predicate VerifiedAt(env: Env, r: Ref, namespace: Option<string>, owner: Meta, mapping: Mapping, meta: Meta) {
    && Addressed(env, r, namespace, mapping)
    && Answers(env, Owner(r.apiVersion, Scope(mapping, namespace), mapping.plural, r.name), Object(meta))
    && meta.uid == r.uid && owner == Meta(r.uid, Scope(mapping, namespace), meta.refs)
  }

  predicate Answers(env: Env, url: Url, answer: Answer) { url in env.answers && env.answers[url] == answer }

  /** The ways to fail: discovery of the kind, the path, or the request. */
  ghost predicate FailsWith(env: Env, r: Ref, namespace: Option<string>, e: Failure) {
    var kind := Kind(r.apiVersion, r.kind);
    || (kind !in env.known && (
          || (e == InvalidVersion && !env.valid(r.apiVersion))
          || (e == RequestFailed && env.valid(r.apiVersion) && Answers(env, Discovery(r.apiVersion), Failing))
          || (e == AmbiguousMapping && env.valid(r.apiVersion) && Discovery(r.apiVersion) in env.answers
              && env.answers[Discovery(r.apiVersion)].Resources?
              && TwoOffers(env.answers[Discovery(r.apiVersion)].list, r.kind))))
    || (exists mapping :: MapsTo(env, kind, mapping) && RequestFails(env, r, namespace, mapping, e))
  }

  ghost predicate RequestFails(env: Env, r: Ref, namespace: Option<string>, mapping: Mapping, e: Failure) {
    && (mapping.namespaced ==> namespace.Some?)
    && var badScope := mapping.namespaced && !PathPart(namespace.value);
       match e
       case InvalidVersion => !badScope && !env.valid(r.apiVersion)
       case InvalidSegment => badScope || (env.valid(r.apiVersion) && !(PathPart(mapping.plural) && PathPart(r.name)))
       case RequestFailed =>
         && Addressed(env, r, namespace, mapping)
         && Answers(env, Owner(r.apiVersion, Scope(mapping, namespace), mapping.plural, r.name), Failing)
       case AmbiguousMapping => false
  }

  lemma {:induction false} MatchesAre(list: seq<Resource>, kind: string)
    ensures forall r :: r in Matches(list, kind) <==> r in list && Offers(r, kind)
  {
    if list != [] {
      MatchesAre(list[1..], kind);
      assert forall r :: r in list <==> r == list[0] || r in list[1..];
    }
  }

  lemma TwoOffersStep(list: seq<Resource>, kind: string)
    requires list != []
    ensures TwoOffers(list, kind) <==>
            TwoOffers(list[1..], kind) || (Offers(list[0], kind) && exists r <- list[1..] :: Offers(r, kind))
  {
    var rest := list[1..];
    if i, j :| 0 <= i < j < |rest| && Offers(rest[i], kind) && Offers(rest[j], kind) {
      assert list[i + 1] == rest[i] && list[j + 1] == rest[j];
    }
    if Offers(list[0], kind) && exists r <- rest :: Offers(r, kind) {
      var j :| 0 <= j < |rest| && Offers(rest[j], kind);
      assert list[j + 1] == rest[j];
    }
    if i, j :| 0 <= i < j < |list| && Offers(list[i], kind) && Offers(list[j], kind) {
      assert list[j] == rest[j - 1] && (i > 0 ==> list[i] == rest[i - 1]);
      assert rest[j - 1] in rest;
    }
  }

  lemma {:induction false} ManyMatches(list: seq<Resource>, kind: string)
    ensures |Matches(list, kind)| > 1 <==> TwoOffers(list, kind)
  {
    if list != [] {
      ManyMatches(list[1..], kind);
      MatchesAre(list[1..], kind);
      TwoOffersStep(list, kind);
      var rest := Matches(list[1..], kind);
      assert rest != [] <==> exists r <- list[1..] :: Offers(r, kind) by { assert rest != [] ==> rest[0] in rest; }
    }
  }

  lemma OneMatch(list: seq<Resource>, kind: string, mapping: Mapping)
    ensures OnlyOffer(list, kind, mapping) <==>
            |Matches(list, kind)| == 1
            && mapping == Mapping(Matches(list, kind)[0].name, Matches(list, kind)[0].namespaced)
  {
    var matches := Matches(list, kind);
    MatchesAre(list, kind);
    ManyMatches(list, kind);
    if OnlyOffer(list, kind, mapping) {
      var i :| 0 <= i < |list| && Offers(list[i], kind) && mapping == Mapping(list[i].name, list[i].namespaced)
               && forall j :: 0 <= j < |list| && j != i ==> !Offers(list[j], kind);
      assert list[i] in matches;
      assert matches[0] in matches;
    }
    if |matches| == 1 && mapping == Mapping(matches[0].name, matches[0].namespaced) {
      assert matches[0] in matches;
      var i :| 0 <= i < |list| && list[i] == matches[0];
      assert forall j :: 0 <= j < |list| && j != i ==> !Offers(list[j], kind);
    }
  }

  lemma MappingExact(env: Env, kind: Kind, mapping: Mapping)
    ensures MappingOf(env, kind) == Ok(Some(mapping)) <==> MapsTo(env, kind, mapping)
  {
    var answer := env.Answered(Discovery(kind.apiVersion));
    OneMatch(if answer.Resources? then answer.list else [], kind.kind, mapping);
  }

  lemma MappingFails(env: Env, kind: Kind, e: Failure)
    ensures MappingOf(env, kind) == Err(e) <==>
            && kind !in env.known
            && match e
               case InvalidVersion => !env.valid(kind.apiVersion)
               case RequestFailed =>
                 env.valid(kind.apiVersion) && Answers(env, Discovery(kind.apiVersion), Failing)
               case AmbiguousMapping =>
                 && env.valid(kind.apiVersion) && Discovery(kind.apiVersion) in env.answers
                 && env.answers[Discovery(kind.apiVersion)].Resources?
                 && TwoOffers(env.answers[Discovery(kind.apiVersion)].list, kind.kind)
               case InvalidSegment => false
  {
    var answer := env.Answered(Discovery(kind.apiVersion));
    ManyMatches(if answer.Resources? then answer.list else [], kind.kind);
  }

  lemma SegmentExact(s: string)
    ensures Segment(s) <==> PathPart(s)
  {
  }

  /** Following a reference finds the owner exactly when the server has it under that UID. */
  lemma ResolvedExact(env: Env, r: Ref, namespace: Option<string>, owner: Meta)
    ensures Resolved(env, r, namespace) == Ok(Some(owner)) <==> Verified(env, r, namespace, owner)
  {
    var kind := Kind(r.apiVersion, r.kind);
    forall mapping ensures MapsTo(env, kind, mapping) <==> MappingOf(env, kind) == Ok(Some(mapping)) {
      MappingExact(env, kind, mapping);
    }
    SegmentExact(r.name);
    if namespace.Some? { SegmentExact(namespace.value); }
    if MappingOf(env, kind).Ok? && MappingOf(env, kind).value.Some? {
      var mapping := MappingOf(env, kind).value.value;
      SegmentExact(mapping.plural);
      if Resolved(env, r, namespace) == Ok(Some(owner)) {
        var url := Owner(r.apiVersion, Scope(mapping, namespace), mapping.plural, r.name);
        assert Addressed(env, r, namespace, mapping);
        assert VerifiedAt(env, r, namespace, owner, mapping, env.answers[url].meta);
      }
    }
  }

  /** It fails exactly for these reasons. */
  lemma FailureExact(env: Env, r: Ref, namespace: Option<string>, e: Failure)
    ensures Resolved(env, r, namespace) == Err(e) <==> FailsWith(env, r, namespace, e)
  {
    var kind := Kind(r.apiVersion, r.kind);
    forall mapping ensures MapsTo(env, kind, mapping) <==> MappingOf(env, kind) == Ok(Some(mapping)) {
      MappingExact(env, kind, mapping);
    }
    MappingFails(env, kind, e);
    SegmentExact(r.name);
    if namespace.Some? { SegmentExact(namespace.value); }
    if MappingOf(env, kind).Ok? && MappingOf(env, kind).value.Some? {
      var mapping := MappingOf(env, kind).value.value;
      SegmentExact(mapping.plural);
      assert MapsTo(env, kind, mapping);
      assert Resolved(env, r, namespace) == Err(e) <==> RequestFails(env, r, namespace, mapping, e);
    }
  }

  /** The group of an apiVersion: what stands before its last slash, nothing without a slash. */
  ghost predicate GroupIs(apiVersion: string, group: string) {
    || ('/' !in apiVersion && group == "")
    || (exists version :: '/' !in version && apiVersion == group + "/" + version)
  }

  lemma {:induction false} GroupExact(apiVersion: string)
    ensures GroupIs(apiVersion, Group(apiVersion))
  {
    if apiVersion != "" {
      var n := |apiVersion| - 1;
      if apiVersion[n] == '/' {
        assert apiVersion == apiVersion[..n] + "/" + "";
      } else {
        GroupExact(apiVersion[..n]);
        if version :| '/' !in version && apiVersion[..n] == Group(apiVersion) + "/" + version {
          assert apiVersion == Group(apiVersion) + "/" + (version + [apiVersion[n]]);
        } else {
          assert apiVersion == apiVersion[..n] + [apiVersion[n]];
        }
      }
    }
  }

  lemma NoSlashAfter(s: string, i: nat)
    requires i < |s| && '/' !in s[i + 1..]
    ensures forall k :: i < k < |s| ==> s[k] != '/'
  {
    forall k | i < k < |s| ensures s[k] != '/' { assert s[k] == s[i + 1..][k - i - 1]; }
  }

  lemma GroupUnique(apiVersion: string, a: string, b: string)
    requires GroupIs(apiVersion, a) && GroupIs(apiVersion, b)
    ensures a == b
  {
    if v, w :| '/' !in v && apiVersion == a + "/" + v && '/' !in w && apiVersion == b + "/" + w {
      assert v == apiVersion[|a| + 1..] && w == apiVersion[|b| + 1..];
      assert apiVersion[|a|] == '/' && apiVersion[|b|] == '/';
      NoSlashAfter(apiVersion, |a|);
      NoSlashAfter(apiVersion, |b|);
      assert a == apiVersion[..|a|] && b == apiVersion[..|b|];
    }
  }

  /** The reference names the target: UID, name, kind, group and, if it has one, namespace. */
  ghost predicate Names(target: Target, r: Ref, namespace: Option<string>) {
    && r.uid == target.uid && r.name == target.name && r.kind == target.kind
    && (exists group :: GroupIs(r.apiVersion, group) && GroupIs(target.apiVersion, group))
    && (target.namespace.Some? ==> namespace == target.namespace)
  }

  lemma NamesExact(target: Target, r: Ref, namespace: Option<string>)
    ensures IsTarget(target, r, namespace) <==> Names(target, r, namespace)
  {
    GroupExact(r.apiVersion);
    GroupExact(target.apiVersion);
    if Names(target, r, namespace) {
      var group :| GroupIs(r.apiVersion, group) && GroupIs(target.apiVersion, group);
      GroupUnique(r.apiVersion, group, Group(r.apiVersion));
      GroupUnique(target.apiVersion, group, Group(target.apiVersion));
    }
  }

  predicate HasTarget(target: Target, m: Meta) { exists r <- m.refs :: IsTarget(target, r, m.namespace) }

  predicate Edge(env: Env, m: Meta, r: Ref, owner: Meta) {
    r in m.refs && r.uid != "" && Resolved(env, r, m.namespace) == Ok(Some(owner))
  }

  lemma EdgeExact(env: Env, m: Meta, r: Ref, owner: Meta)
    ensures Edge(env, m, r, owner) <==> r in m.refs && r.uid != "" && Verified(env, r, m.namespace, owner)
  {
    ResolvedExact(env, r, m.namespace, owner);
  }

  type Relation = iset<(Meta, Meta)>

  /** Who is verifiably owned by whom. */
  ghost function Ownership(env: Env): Relation { iset m, r, owner | Edge(env, m, r, owner) :: (m, owner) }

  /** A chain of n links leads from the Pod to the object. */
  ghost predicate Chain(links: Relation, pod: Meta, m: Meta, n: nat)
    decreases n
  {
    if n == 0 then m == pod else exists p :: Chain(links, pod, p, n - 1) && (p, m) in links
  }

  ghost predicate Reachable(env: Env, pod: Meta, m: Meta) { exists n: nat :: Chain(Ownership(env), pod, m, n) }

  /** Plain reachability: some verified ancestor refers to the target. */
  ghost predicate Owned(env: Env, target: Target, pod: Meta) {
    exists m :: Reachable(env, pod, m) && HasTarget(target, m)
  }

  /** A chain of objects from the Pod up: every next one is what the servers have, under the same
      UID, for a reference of the one before, and the last one refers to the target. */
  ghost predicate Leads(env: Env, target: Target, pod: Meta, path: seq<Meta>) {
    && Links(env, pod, path)
    && Refers(target, path[|path| - 1])
  }

  ghost predicate Refers(target: Target, m: Meta) { exists r <- m.refs :: Names(target, r, m.namespace) }

  ghost predicate Links(env: Env, pod: Meta, path: seq<Meta>) {
    && path != [] && path[0] == pod
    && forall i :: 0 < i < |path| ==> Link(env, path[i - 1], path[i])
  }

  /** Such a chain to an object with a reference that cannot be followed. */
  ghost predicate Fails(env: Env, pod: Meta, path: seq<Meta>, e: Failure) {
    && Links(env, pod, path)
    && exists r <- path[|path| - 1].refs :: r.uid != "" && FailsWith(env, r, path[|path| - 1].namespace, e)
  }

  predicate Stuck(env: Env, m: Meta, e: Failure) {
    exists r <- m.refs :: r.uid != "" && Resolved(env, r, m.namespace) == Err(e)
  }

  ghost predicate Link(env: Env, m: Meta, owner: Meta) {
    exists r <- m.refs :: r.uid != "" && Verified(env, r, m.namespace, owner)
  }

  lemma LinkExact(env: Env, m: Meta, owner: Meta)
    ensures (m, owner) in Ownership(env) <==> Link(env, m, owner)
  {
    forall r ensures Edge(env, m, r, owner) <==>
                     r in m.refs && r.uid != "" && Verified(env, r, m.namespace, owner)
    {
      EdgeExact(env, m, r, owner);
    }
  }

  ghost predicate Path(links: Relation, pod: Meta, path: seq<Meta>) {
    path != [] && path[0] == pod && forall i :: 0 < i < |path| ==> (path[i - 1], path[i]) in links
  }

  lemma {:induction false} ChainPath(links: Relation, pod: Meta, m: Meta, n: nat) returns (path: seq<Meta>)
    requires Chain(links, pod, m, n)
    ensures Path(links, pod, path) && path[|path| - 1] == m
    decreases n
  {
    if n == 0 {
      path := [pod];
    } else {
      var p :| Chain(links, pod, p, n - 1) && (p, m) in links;
      var rest := ChainPath(links, pod, p, n - 1);
      path := rest + [m];
    }
  }

  lemma {:induction false} PathChain(links: Relation, pod: Meta, path: seq<Meta>)
    requires Path(links, pod, path)
    ensures Chain(links, pod, path[|path| - 1], |path| - 1)
  {
    var n := |path| - 1;
    if n > 0 {
      PathChain(links, pod, path[..n]);
      assert (path[n - 1], path[n]) in links;
    }
  }

  lemma LinksExact(env: Env, pod: Meta, path: seq<Meta>)
    ensures Links(env, pod, path) <==> Path(Ownership(env), pod, path)
  {
    forall i | 0 < i < |path| ensures Link(env, path[i - 1], path[i]) <==> (path[i - 1], path[i]) in Ownership(env) {
      LinkExact(env, path[i - 1], path[i]);
    }
  }

  /** Whatever is reachable, is so along a path. */
  lemma ReachablePath(env: Env, pod: Meta, m: Meta) returns (path: seq<Meta>)
    requires Reachable(env, pod, m)
    ensures Links(env, pod, path) && path[|path| - 1] == m
  {
    var n: nat :| Chain(Ownership(env), pod, m, n);
    path := ChainPath(Ownership(env), pod, m, n);
    LinksExact(env, pod, path);
  }

  /** Being owned is having a chain of verified answers that leads to the target. */
  lemma OwnedExact(env: Env, target: Target, pod: Meta)
    ensures Owned(env, target, pod) <==> exists path :: Leads(env, target, pod, path)
  {
    if Owned(env, target, pod) {
      var m :| Reachable(env, pod, m) && HasTarget(target, m);
      var path := ReachablePath(env, pod, m);
      var r :| r in m.refs && IsTarget(target, r, m.namespace);
      NamesExact(target, r, m.namespace);
      assert Leads(env, target, pod, path);
    }
    if path: seq<Meta> :| Leads(env, target, pod, path) {
      var m := path[|path| - 1];
      LinksExact(env, pod, path);
      PathChain(Ownership(env), pod, path);
      var r :| r in m.refs && Names(target, r, m.namespace);
      NamesExact(target, r, m.namespace);
      assert Reachable(env, pod, m) && HasTarget(target, m);
    }
  }

  lemma FailedOnPath(env: Env, pod: Meta, e: Failure)
    requires exists m :: Reachable(env, pod, m) && Stuck(env, m, e)
    ensures exists path :: Fails(env, pod, path, e)
  {
    var m :| Reachable(env, pod, m) && Stuck(env, m, e);
    var r :| r in m.refs && r.uid != "" && Resolved(env, r, m.namespace) == Err(e);
    var path := ReachablePath(env, pod, m);
    FailureExact(env, r, m.namespace, e);
    assert Fails(env, pod, path, e);
  }

  /** References with the same UID are the same reference. */
  ghost predicate Agreeing(env: Env, pod: Meta) {
    forall a: Meta, b: Meta, r, s ::
      Reachable(env, pod, a) && Reachable(env, pod, b) && r in a.refs && s in b.refs && r.uid == s.uid ==> r == s
  }

  lemma ReachSelf(env: Env, pod: Meta)
    ensures Reachable(env, pod, pod)
  {
    assert Chain(Ownership(env), pod, pod, 0);
  }

  lemma ReachStep(env: Env, pod: Meta, m: Meta, r: Ref, owner: Meta)
    requires Reachable(env, pod, m) && Edge(env, m, r, owner)
    ensures Reachable(env, pod, owner)
  {
    var n: nat :| Chain(Ownership(env), pod, m, n);
    assert (m, owner) in Ownership(env);
    assert Chain(Ownership(env), pod, owner, n + 1);
  }

  /** A set that contains the Pod and is closed under ownership contains everything reachable. */
  lemma {:induction false} ClosedChain(links: Relation, seen: set<Meta>, pod: Meta, m: Meta, n: nat)
    requires forall a, b :: (a, b) in links && a in seen ==> b in seen
    requires pod in seen && Chain(links, pod, m, n)
    ensures m in seen
    decreases n
  {
    if n > 0 {
      var p :| Chain(links, pod, p, n - 1) && (p, m) in links;
      ClosedChain(links, seen, pod, p, n - 1);
    }
  }
}
