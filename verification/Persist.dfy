/** Committing a returned snapshot: the guarded diff, and the two patches that write the main
    document and its status to different endpoints while other writers interfere. */
module Persist {
  import opened Wrappers
  import opened Sequences
  import opened Json
  import opened JsonPatch
  import opened JsonPatchProofs

  datatype Refusal = IdentityChanged | NotFetched | VersionChanged | Conflict

  function Meta(doc: Json, key: string): Option<Json> {
    var meta := Field(doc, "metadata");
    if meta.Some? then Field(meta.value, key) else None
  }

  predicate Named(value: Option<Json>) { value.Some? && value.value.Str? && value.value.s != "" }

  predicate SameObject(before: Json, after: Json) {
    (forall k <- ["apiVersion", "kind"] :: Field(before, k) == Field(after, k))
    && forall k <- ["name", "namespace"] :: Meta(before, k) == Meta(after, k)
  }

  predicate Fetched(doc: Json) { forall k <- ["uid", "resourceVersion"] :: Named(Meta(doc, k)) }

  predicate SameVersion(before: Json, after: Json) {
    forall k <- ["uid", "resourceVersion"] :: Meta(before, k) == Meta(after, k)
  }

  /** Only a fetched snapshot and an edit of the same object and version are compared. */
  function CheckIdentity(before: Json, after: Json): (r: Option<Refusal>)
    ensures r == Some(IdentityChanged) <==> !SameObject(before, after)
    ensures r == Some(NotFetched) <==> SameObject(before, after) && !Fetched(before)
    ensures r == Some(VersionChanged) <==> SameObject(before, after) && Fetched(before) && !SameVersion(before, after)
    ensures r != Some(Conflict)
  {
    if Field(before, "apiVersion") != Field(after, "apiVersion") || Field(before, "kind") != Field(after, "kind")
       || Meta(before, "name") != Meta(after, "name") || Meta(before, "namespace") != Meta(after, "namespace")
    then Some(IdentityChanged)
    else if !Named(Meta(before, "uid")) || !Named(Meta(before, "resourceVersion")) then Some(NotFetched)
    else if Meta(after, "uid") != Meta(before, "uid")
      || Meta(after, "resourceVersion") != Meta(before, "resourceVersion")
    then Some(VersionChanged)
    else None
  }

  /** The operation passes exactly on documents whose metadata has this value under the key. */
  ghost predicate Tests(op: Op, key: string, value: Json) {
    && op.Test? && op.value == value
    && forall doc: Json, v: Json {:trigger ApplyOp(Test(op.path, v), doc)} :: Storable(doc) ==>
         ApplyOp(Test(op.path, v), doc) == if Meta(doc, key) == Some(v) then Some(doc) else None
  }

  ghost predicate Guarding(guards: seq<Op>, uid: Json, version: Json) {
    |guards| == 2 && Tests(guards[0], "uid", uid) && Tests(guards[1], "resourceVersion", version)
  }

  ghost predicate GuardingDoc(guards: seq<Op>, doc: Json) {
    && Meta(doc, "uid").Some? && Meta(doc, "resourceVersion").Some?
    && Guarding(guards, Meta(doc, "uid").value, Meta(doc, "resourceVersion").value)
  }

  lemma {:induction false} PlainEscape(key: string)
    requires '~' !in key && '/' !in key
    ensures Escape(key) == key
  {
    if key != "" {
      PlainEscape(key[1..]);
      EscapeCons(key);
      assert key == [key[0]] + key[1..];
    }
  }

  lemma TwoTokens(first: string, second: string)
    requires '~' !in first && '/' !in first && '~' !in second && '/' !in second
    ensures Tokens("/" + first + "/" + second) == Some([first, second])
  {
    PlainEscape(first);
    PlainEscape(second);
    PointerRoundTrip([second]);
    var tail := "/" + second;
    assert [second][1..] == [];
    assert Pointer([second]) == tail + "" == tail;
    assert Tokens(tail) == Some([second]);
    FirstToken(first, tail);
    assert "/" + first + tail == "/" + first + "/" + second;
    assert [first] + [second] == [first, second];
  }

  lemma TestAt(op: Op, doc: Json, parent: string, key: string)
    requires op.Test? && Tokens(op.path) == Some([parent, key]) && doc.Obj? && parent in doc.fields
             && doc.fields[parent].Obj?
    ensures ApplyOp(op, doc) == if Field(doc.fields[parent], key) == Some(op.value) then Some(doc) else None
  {
    var child := doc.fields[parent];
    assert [parent, key][1..] == [key];
    assert ApplyAt(op, child, [key]) == ApplyHere(op, child, key);
    assert doc.fields[parent := child] == doc.fields;
  }

  lemma TestsAt(path: string, parent: string, key: string, doc: Json, v: Json)
    requires Tokens(path) == Some([parent, key]) && parent == "metadata" && Storable(doc)
    ensures ApplyOp(Test(path, v), doc) == if Meta(doc, key) == Some(v) then Some(doc) else None
  {
    TestAt(Test(path, v), doc, parent, key);
  }

  lemma TestsMeta(op: Op, parent: string, key: string)
    requires op.Test? && parent == "metadata" && '~' !in key && '/' !in key && op.path == "/" + parent + "/" + key
    ensures Tests(op, key, op.value)
  {
    TwoTokens(parent, key);
    forall doc: Json, v: Json | Storable(doc)
      ensures ApplyOp(Test(op.path, v), doc) == if Meta(doc, key) == Some(v) then Some(doc) else None
    {
      TestsAt(op.path, parent, key, doc, v);
    }
  }

  method TestMeta(key: string, value: Json) returns (op: Op)
    requires '~' !in key && '/' !in key
    ensures Tests(op, key, value)
  {
    op := Test("/metadata/" + key, value);
    assert op.path == "/" + "metadata" + "/" + key;
    TestsMeta(op, "metadata", key);
  }

  method GuardedDiff(before: Json, after: Json) returns (result: Result<seq<Op>, Refusal>)
    ensures result.Err? <==> CheckIdentity(before, after).Some?
    ensures result.Err? ==> result.error == CheckIdentity(before, after).value
    ensures result.Ok? && before == after ==> result.value == []
    ensures result.Ok? && before != after ==>
              |result.value| >= 2 && GuardingDoc(result.value[..2], before) && result.value[2..] == Diff(before, after)
  {
    var refusal := CheckIdentity(before, after);
    if refusal.Some? { return Err(refusal.value); }
    var patch := ComputePatch(before, after);
    EmptyIffEqual(before, after);
    if patch == [] { return Ok([]); }
    var uidGuard := TestMeta("uid", Meta(before, "uid").value);
    var versionGuard := TestMeta("resourceVersion", Meta(before, "resourceVersion").value);
    var guards := [uidGuard, versionGuard];
    assert (guards + patch)[..2] == guards && (guards + patch)[2..] == patch;
    result := Ok(guards + patch);
  }

  predicate IsStatus(op: Op) { op.path == "/status" || "/status/" <= op.path }

  function Half(status: bool): Op -> bool { op => IsStatus(op) == status }

  function Select(ops: seq<Op>, status: bool): seq<Op> { Filter(ops, Half(status)) }

  // ----- the server -----

  function WithStatusOf(doc: Json, source: Json): Json
    requires doc.Obj? && source.Obj?
  {
    Obj(if "status" in source.fields then doc.fields["status" := source.fields["status"]] else doc.fields - {"status"})
  }

  /** Versions are opaque; this text tells them apart. */
  function VersionText(n: nat): string { seq(n + 1, _ => 'v') }

  predicate Storable(doc: Json) { doc.Obj? && "metadata" in doc.fields && doc.fields["metadata"].Obj? }

  /** The server puts its own version into every document it stores. */
  function Stamp(doc: Json, n: nat): Json
    requires Storable(doc)
  {
    Obj(doc.fields["metadata" := Obj(doc.fields["metadata"].fields["resourceVersion" := Str(VersionText(n))])])
  }

  /** Every version of one object, oldest first. */
  predicate History(h: seq<Json>) {
    h != [] && forall i :: 0 <= i < |h| ==> Storable(h[i]) && Meta(h[i], "resourceVersion") == Some(Str(VersionText(i)))
  }

  function Store(h: seq<Json>, doc: Json): seq<Json> { if Storable(doc) then h + [Stamp(doc, |h|)] else h }

  function StoreAll(h: seq<Json>, docs: seq<Json>): seq<Json>
    decreases |docs|
  {
    if docs == [] then h else StoreAll(Store(h, docs[0]), docs[1..])
  }

  datatype Endpoint = Whole | Main | Status

  /** The document a patch asks to store. With a status subresource, the main endpoint keeps the
      stored status and the status endpoint changes nothing else. */
  function Patched(stored: Json, ops: seq<Op>, endpoint: Endpoint): Option<Json>
    requires stored.Obj?
  {
    match Apply(ops, stored)
    case None => None
    case Some(doc) =>
      if !doc.Obj? then None
      else match endpoint
        case Whole => Some(doc)
        case Main => Some(WithStatusOf(doc, stored))
        case Status => Some(WithStatusOf(stored, doc))
  }

  class Api {
    var history: seq<Json>
    const statusSubresource: bool

    constructor (history: seq<Json>, statusSubresource: bool)
      ensures this.history == history && this.statusSubresource == statusSubresource
    {
      this.history := history;
      this.statusSubresource := statusSubresource;
    }

    /** One request, served after `others` have been written by other writers. */
    method Patch(ops: seq<Op>, endpoint: Endpoint, others: seq<Json>) returns (result: Option<Json>)
      requires History(history)
      modifies this
      ensures var h := StoreAll(old(history), others);
              && History(h) && History(history)
              && var doc := Patched(h[|h| - 1], ops, endpoint);
                 && (result.Some? <==> doc.Some? && Storable(doc.value))
                 && (result.Some? ==> result.value == Stamp(doc.value, |h|))
                 && history == if result.Some? then h + [result.value] else h
    {
      StoreAllHistory(history, others);
      history := StoreAll(history, others);
      var doc := Patched(history[|history| - 1], ops, endpoint);
      if doc.None? || !Storable(doc.value) { return None; }
      StoreHistory(history, doc.value);
      history := Store(history, doc.value);
      result := Some(history[|history| - 1]);
    }
  }

  lemma StampVersion(doc: Json, n: nat)
    requires Storable(doc)
    ensures Storable(Stamp(doc, n)) && Meta(Stamp(doc, n), "resourceVersion") == Some(Str(VersionText(n)))
  {
  }

  lemma StoreHistory(h: seq<Json>, doc: Json)
    requires History(h)
    ensures History(Store(h, doc))
  {
    if Storable(doc) { StampVersion(doc, |h|); }
  }

  lemma {:induction false} StoreAllHistory(h: seq<Json>, docs: seq<Json>)
    requires History(h)
    ensures History(StoreAll(h, docs)) && |StoreAll(h, docs)| >= |h| && StoreAll(h, docs)[..|h|] == h
    decreases |docs|
  {
    if docs != [] {
      StoreHistory(h, docs[0]);
      StoreAllHistory(Store(h, docs[0]), docs[1..]);
    }
  }

  // ----- the guards -----

  lemma TestPasses(op: Op, key: string, value: Json, doc: Json)
    requires Tests(op, key, value) && Storable(doc)
    ensures ApplyOp(op, doc) == if Meta(doc, key) == Some(value) then Some(doc) else None
  {
    assert op == Test(op.path, value);
  }

  lemma ApplyCons(op: Op, rest: seq<Op>, doc: Json)
    ensures Apply([op] + rest, doc) == if ApplyOp(op, doc).None? then None else Apply(rest, ApplyOp(op, doc).value)
  {
    assert ([op] + rest)[1..] == rest;
  }

  /** Guarded operations apply to the named object and version only. */
  lemma GuardsHold(doc: Json, guards: seq<Op>, uid: Json, version: Json, ops: seq<Op>)
    requires Storable(doc) && Guarding(guards, uid, version)
    ensures Apply(guards + ops, doc)
            == if Meta(doc, "uid") == Some(uid) && Meta(doc, "resourceVersion") == Some(version)
               then Apply(ops, doc) else None
  {
    TestPasses(guards[0], "uid", uid, doc);
    TestPasses(guards[1], "resourceVersion", version, doc);
    ApplyCons(guards[0], [guards[1]] + ops, doc);
    ApplyCons(guards[1], ops, doc);
    assert guards + ops == [guards[0]] + ([guards[1]] + ops);
  }

  lemma VersionsDiffer(h: seq<Json>, i: nat, j: nat)
    requires History(h) && i < |h| && j < |h|
    ensures Meta(h[i], "resourceVersion") == Meta(h[j], "resourceVersion") <==> i == j
  {
    assert |VersionText(i)| == i + 1 && |VersionText(j)| == j + 1;
  }

  // ----- main and status operations -----

  /** The operations of one key are status operations exactly when the key is "status". */
  lemma KeyIsStatus(before: Json, after: Json, key: string)
    requires before.Obj? && after.Obj? && (key in before.fields || key in after.fields)
    ensures forall op <- VisitKey(before, after, key, "") :: IsStatus(op) <==> key == "status"
  {
    var ops := VisitKey(before, after, key, "");
    var stem := "/" + Escape(key);
    if key in before.fields && key in after.fields {
      VisitSharedKey(before, after, key);
      VisitRegular(before.fields[key], after.fields[key]);
      RebasedStatus(Diff(before.fields[key], after.fields[key]), key);
    } else {
      assert ops[0].path == stem + "" == "" + "/" + Escape(key);
      PathIsStatus(key, "");
    }
  }

  lemma PathIsStatus(key: string, rest: string)
    requires rest == "" || rest[0] == '/'
    ensures ("/" + Escape(key) + rest == "/status" || "/status/" <= "/" + Escape(key) + rest) <==> key == "status"
  {
    assert "/status" == "/" + "status" && "/status/" == "/" + "status" + "/";
    PathIsKey(key, rest, "status");
  }

  lemma PathIsKey(key: string, rest: string, name: string)
    requires '~' !in name && '/' !in name && (rest == "" || rest[0] == '/')
    ensures var path := "/" + Escape(key) + rest;
            (path == "/" + name || "/" + name + "/" <= path) <==> key == name
  {
    EscapeRoundTrip(key);
    EscapeRoundTrip(name);
    PlainEscape(name);
    var path := "/" + Escape(key) + rest;
    if path == "/" + name || "/" + name + "/" <= path { SameSegment(Escape(key), rest, name, path); }
  }

  /** Two readings of one path start with the same segment. */
  lemma SameSegment(segment: string, rest: string, name: string, path: string)
    requires '/' !in segment && (rest == "" || rest[0] == '/') && path == "/" + segment + rest
    requires '/' !in name && (path == "/" + name || "/" + name + "/" <= path)
    ensures segment == name
  {
    var tail := path[1 + |name|..];
    assert path[1..] == segment + rest && path[1..] == name + tail;
    SegmentOf(segment, rest);
    SegmentOf(name, tail);
    assert name == path[1..][..|name|] && segment == path[1..][..|segment|];
  }

  lemma {:induction false} RebasedStatus(patch: seq<Op>, key: string)
    requires forall op <- patch :: Regular(op)
    ensures forall op <- RebaseAll(patch, "/" + Escape(key)) :: IsStatus(op) <==> key == "status"
  {
    if patch != [] {
      assert Regular(patch[0]);
      PathIsStatus(key, patch[0].path);
      RebasedStatus(patch[1..], key);
    }
  }

  function Only(keys: seq<string>, status: bool): seq<string> {
    if keys == [] then [] else (if (keys[0] == "status") == status then [keys[0]] else []) + Only(keys[1..], status)
  }

  lemma {:induction false} OnlyKeys(keys: seq<string>, status: bool)
    ensures forall k :: k in Only(keys, status) <==> k in keys && (k == "status") == status
    ensures NoRepeats(keys) ==> NoRepeats(Only(keys, status))
  {
    if keys != [] {
      OnlyKeys(keys[1..], status);
      FirstApart(keys);
      if Only(keys, status) != [] { FirstApart(Only(keys, status)); }
      if (keys[0] == "status") == status { assert Only(keys, status)[1..] == Only(keys[1..], status); }
    }
  }

  lemma {:induction false} SelectKeys(before: Json, after: Json, keys: seq<string>, status: bool)
    requires before.Obj? && after.Obj? && forall k <- keys :: k in before.fields || k in after.fields
    ensures forall k <- Only(keys, status) :: k in before.fields || k in after.fields
    ensures Select(VisitKeys(before, after, keys, ""), status) == VisitKeys(before, after, Only(keys, status), "")
  {
    OnlyKeys(keys, status);
    if keys != [] {
      var key, rest := keys[0], keys[1..];
      var ops := VisitKey(before, after, key, "");
      KeyIsStatus(before, after, key);
      FilterUniform(ops, Half(status), (key == "status") == status);
      FilterAppend(ops, VisitKeys(before, after, rest, ""), Half(status));
      SelectKeys(before, after, rest, status);
      if (key == "status") == status {
        assert Only(keys, status)[0] == key && Only(keys, status)[1..] == Only(rest, status);
      } else {
        assert Only(keys, status) == Only(rest, status);
      }
    }
  }

  ghost function Part(before: Json, after: Json, status: bool): seq<Op> { Select(Diff(before, after), status) }

  /** Each half of one diff works on any document that agrees with the snapshot where it writes. */
  lemma PartRoundTrip(before: Json, after: Json, doc: Json, status: bool)
    requires before.Obj? && after.Obj? && doc.Obj?
    requires forall k :: (k == "status") == status ==> AgreeOn(doc, before, k)
    ensures Apply(Part(before, after, status), doc)
            == Some(if status then WithStatusOf(doc, after) else WithStatusOf(after, doc))
  {
    var all := Sorted(before.fields.Keys + after.fields.Keys);
    var keys := Only(all, status);
    OnlyKeys(all, status);
    SelectKeys(before, after, all, status);
    SortedApart(before.fields.Keys + after.fields.Keys);
    KeysRoundTrip(before, after, keys, doc);
    forall k | (k == "status") == status
      ensures k in doc.fields <==> k in before.fields
    {
      assert AgreeOn(doc, before, k);
    }
    if status { UpdatedStatus(doc, after, keys); } else { UpdatedMain(doc, after, keys); }
  }

  lemma UpdatedStatus(doc: Json, after: Json, keys: seq<string>)
    requires doc.Obj? && after.Obj? && forall k <- keys :: k == "status"
    requires "status" in doc.fields || "status" in after.fields ==> "status" in keys
    ensures Obj(Updated(doc.fields, after.fields, keys)) == WithStatusOf(doc, after)
  {
  }

  lemma MidAgrees(original: Json, desired: Json, first: bool, mid: Json)
    requires original.Obj? && desired.Obj?
    requires mid == if first then WithStatusOf(original, desired) else WithStatusOf(desired, original)
    ensures forall k :: (k == "status") == !first ==> AgreeOn(mid, original, k)
    ensures (if first then WithStatusOf(desired, mid) else WithStatusOf(mid, desired)) == desired
  {
  }

  lemma SecondHalf(original: Json, desired: Json, first: bool, mid: Json)
    requires original.Obj? && desired.Obj?
    requires mid == if first then WithStatusOf(original, desired) else WithStatusOf(desired, original)
    ensures Apply(Part(original, desired, !first), mid) == Some(desired)
  {
    MidAgrees(original, desired, first, mid);
    PartRoundTrip(original, desired, mid, !first);
  }

  lemma ApplyBoth(p: seq<Op>, q: seq<Op>, doc: Json, mid: Json)
    requires Apply(p, doc) == Some(mid)
    ensures Apply(p + q, doc) == Apply(q, mid)
  {
    ApplyAppend(p, q, doc);
  }

  lemma HalfThenHalf(original: Json, desired: Json, first: bool)
    requires original.Obj? && desired.Obj?
    ensures Apply(Part(original, desired, first) + Part(original, desired, !first), original) == Some(desired)
  {
    PartRoundTrip(original, desired, original, first);
    var mid := if first then WithStatusOf(original, desired) else WithStatusOf(desired, original);
    SecondHalf(original, desired, first, mid);
    ApplyBoth(Part(original, desired, first), Part(original, desired, !first), original, mid);
  }

  /** The two halves commute: in either order they give the desired document. */
  lemma HalvesCommute(original: Json, desired: Json)
    requires original.Obj? && desired.Obj?
    ensures Apply(Part(original, desired, false) + Part(original, desired, true), original) == Some(desired)
    ensures Apply(Part(original, desired, true) + Part(original, desired, false), original) == Some(desired)
  {
    HalfThenHalf(original, desired, false);
    HalfThenHalf(original, desired, true);
  }

  lemma UpdatedMain(doc: Json, after: Json, keys: seq<string>)
    requires doc.Obj? && after.Obj?
    requires forall k :: k in keys <==> k != "status" && (k in doc.fields || k in after.fields)
    ensures Obj(Updated(doc.fields, after.fields, keys)) == WithStatusOf(after, doc)
  {
  }

  lemma PartEmpty(before: Json, after: Json, status: bool)
    requires before.Obj? && after.Obj?
    ensures Part(before, after, status) == []
            <==> (if status then WithStatusOf(before, after) else WithStatusOf(after, before)) == before
  {
    var all := Sorted(before.fields.Keys + after.fields.Keys);
    PartRoundTrip(before, after, before, status);
    OnlyKeys(all, status);
    SelectKeys(before, after, all, status);
    if (if status then WithStatusOf(before, after) else WithStatusOf(after, before)) == before {
      KeysOfEqualPart(before, after, Only(all, status));
    }
  }

  lemma {:induction false} KeysOfEqualPart(before: Json, after: Json, keys: seq<string>)
    requires before.Obj? && after.Obj?
    requires forall k <- keys :: k in before.fields && k in after.fields && before.fields[k] == after.fields[k]
    ensures VisitKeys(before, after, keys, "") == []
  {
    if keys != [] {
      VisitSharedKey(before, after, keys[0]);
      DiffOfEqual(before.fields[keys[0]]);
      KeysOfEqualPart(before, after, keys[1..]);
    }
  }

  // ----- the commit -----

  /** The current version is `base`: it is the last one, and the other writers stored nothing. */
  predicate StillCurrent(h: seq<Json>, base: Json, others: seq<Json>)
    requires h != []
  {
    h[|h| - 1] == base && StoreAll(h, others) == h
  }

  lemma CurrentVersion(h: seq<Json>, i: nat, others: seq<Json>)
    requires History(h) && i < |h|
    ensures var g := StoreAll(h, others);
            && History(g)
            && (Meta(g[|g| - 1], "resourceVersion") == Meta(h[i], "resourceVersion") <==> StillCurrent(h, h[i], others))
  {
    StoreAllHistory(h, others);
    var g := StoreAll(h, others);
    assert g[i] == g[..|h|][i] == h[i];
    VersionsDiffer(g, i, |g| - 1);
    VersionsDiffer(h, i, |h| - 1);
    if i == |g| - 1 { assert g == g[..|h|]; }
  }

  lemma GuardsOfBase(doc: Json, base: Json, guards: seq<Op>, ops: seq<Op>)
    requires Storable(doc) && GuardingDoc(guards, base)
    ensures Apply(guards + ops, doc)
            == if Meta(doc, "uid") == Meta(base, "uid") && Meta(doc, "resourceVersion") == Meta(base, "resourceVersion")
               then Apply(ops, doc) else None
  {
    GuardsHold(doc, guards, Meta(base, "uid").value, Meta(base, "resourceVersion").value, ops);
  }

  lemma CurrentBase(h: seq<Json>, base: Json, others: seq<Json>)
    requires History(h) && base in h
    ensures var g := StoreAll(h, others);
            && History(g) && Storable(g[|g| - 1])
            && (StillCurrent(h, base, others) ==> g[|g| - 1] == base)
            && (Meta(g[|g| - 1], "resourceVersion") == Meta(base, "resourceVersion") <==> StillCurrent(h, base, others))
  {
    var i :| 0 <= i < |h| && h[i] == base;
    CurrentVersion(h, i, others);
  }

  /** What guarded operations on `base` do, served after other writers. */
  lemma GuardedApply(h: seq<Json>, base: Json, others: seq<Json>, guards: seq<Op>, ops: seq<Op>)
    requires History(h) && base in h && GuardingDoc(guards, base)
    ensures History(StoreAll(h, others))
    ensures Apply(guards + ops, StoreAll(h, others)[|StoreAll(h, others)| - 1])
            == if StillCurrent(h, base, others) then Apply(ops, base) else None
  {
    CurrentBase(h, base, others);
    var g := StoreAll(h, others);
    GuardsOfBase(g[|g| - 1], base, guards, ops);
  }

  predicate ChangesMain(original: Json, desired: Json)
    requires original.Obj? && desired.Obj?
  {
    WithStatusOf(desired, original) != original
  }

  predicate ChangesStatus(original: Json, desired: Json)
    requires original.Obj? && desired.Obj?
  {
    WithStatusOf(original, desired) != original
  }

  /** The versions a commit adds, oldest first: one patch, or main and then status. */
  function Versions(n: nat, original: Json, desired: Json, subresource: bool): seq<Json>
    requires Storable(original) && Storable(desired)
  {
    if subresource && ChangesMain(original, desired) && ChangesStatus(original, desired)
    then [Stamp(WithStatusOf(desired, original), n), Stamp(desired, n + 1)]
    else [Stamp(desired, n)]
  }

  /** Nobody else writes between the snapshot and the commit, nor between its two patches. */
  predicate Undisturbed(h: seq<Json>, original: Json, desired: Json, subresource: bool, others: seq<Json>,
                        laterOthers: seq<Json>)
    requires h != [] && Storable(original) && Storable(desired)
  {
    var versions := Versions(|h|, original, desired, subresource);
    && StillCurrent(h, original, others)
    && (|versions| == 2 ==> StillCurrent(h + [versions[0]], versions[0], laterOthers))
  }

  /** Every version there is afterwards: the commit's own and nobody else's, or, after a conflict,
      those of the others, behind the main half if that one took effect. */
  function Aftermath(h: seq<Json>, original: Json, desired: Json, subresource: bool,
                     others: seq<Json>, laterOthers: seq<Json>): seq<Json>
    requires h != [] && Storable(original) && Storable(desired)
  {
    var versions := Versions(|h|, original, desired, subresource);
    if !StillCurrent(h, original, others) then StoreAll(h, others)
    else if |versions| == 1 then h + versions
    else AfterMain(h + [versions[0]], versions[0], versions[1], laterOthers)
  }

  function AfterMain(h: seq<Json>, main: Json, whole: Json, laterOthers: seq<Json>): seq<Json>
    requires h != []
  {
    if StillCurrent(h, main, laterOthers) then h + [whole] else StoreAll(h, laterOthers)
  }

  /** When only one half changes, that half alone gives the desired document. */
  lemma OneHalf(original: Json, desired: Json)
    requires original.Obj? && desired.Obj?
    ensures !ChangesMain(original, desired) ==>
              WithStatusOf(original, desired) == desired && (original != desired ==> ChangesStatus(original, desired))
    ensures !ChangesStatus(original, desired) ==> WithStatusOf(desired, original) == desired
  {
    if !ChangesMain(original, desired) { StatusSwap(desired, original); }
  }

  /** The main half keeps the snapshot's status, and the status half completes it. */
  lemma StampedHalf(original: Json, desired: Json, n: nat)
    requires Storable(original) && Storable(desired)
    ensures var main := Stamp(WithStatusOf(desired, original), n);
            var whole := WithStatusOf(main, desired);
            && AgreeOn(main, original, "status") && Field(main, "status") == Field(original, "status")
            && Storable(whole) && Stamp(whole, n + 1) == Stamp(desired, n + 1)
  {
    var meta := desired.fields["metadata"].fields;
    var main := Stamp(WithStatusOf(desired, original), n);
    var whole := WithStatusOf(main, desired);
    assert whole.fields == desired.fields["metadata" := Obj(meta["resourceVersion" := Str(VersionText(n))])];
    SetKey(meta, "resourceVersion", Str(VersionText(n)), Str(VersionText(n + 1)));
    SetKey(desired.fields, "metadata", whole.fields["metadata"], Stamp(desired, n + 1).fields["metadata"]);
  }

  /** Swapping the status of one document for another's changes nothing else. */
  lemma StatusSwap(a: Json, b: Json)
    requires a.Obj? && b.Obj? && WithStatusOf(a, b) == b
    ensures WithStatusOf(b, a) == a
  {
    assert a.fields - {"status"} == b.fields - {"status"} by {
      assert forall k :: k != "status" ==> (k in a.fields <==> k in WithStatusOf(a, b).fields);
    }
    assert forall k :: k != "status" ==> (k in a.fields <==> k in b.fields);
    assert WithStatusOf(b, a).fields == a.fields;
  }

  lemma GuardedPatch(h: seq<Json>, base: Json, others: seq<Json>, guards: seq<Op>, ops: seq<Op>, endpoint: Endpoint)
    requires History(h) && base in h && base.Obj? && GuardingDoc(guards, base)
    ensures History(StoreAll(h, others))
    ensures Patched(StoreAll(h, others)[|StoreAll(h, others)| - 1], guards + ops, endpoint)
            == if StillCurrent(h, base, others) then Patched(base, ops, endpoint) else None
  {
    GuardedApply(h, base, others, guards, ops);
  }

  /** One guarded request takes effect exactly when its base is still current. */
  method Send(api: Api, guards: seq<Op>, ops: seq<Op>, endpoint: Endpoint, base: Json, others: seq<Json>,
              ghost goal: Json)
    returns (result: Option<Json>)
    requires History(api.history) && base in api.history && GuardingDoc(guards, base)
    requires base.Obj? && Patched(base, ops, endpoint) == Some(goal) && Storable(goal)
    modifies api
    ensures result.Some? <==> StillCurrent(old(api.history), base, others)
    ensures result.Some? ==> result.value == Stamp(goal, |old(api.history)|)
    ensures api.history == if result.Some? then old(api.history) + [result.value]
            else StoreAll(old(api.history), others)
    ensures History(api.history)
  {
    GuardedPatch(api.history, base, others, guards, ops, endpoint);
    result := api.Patch(guards + ops, endpoint, others);
  }

  /** What the split of a guarded diff gives: operations that work on any document agreeing with
      the snapshot where they write, and together produce the desired one. */
  ghost predicate Halves(original: Json, desired: Json, mainChanges: seq<Op>, statusChanges: seq<Op>)
    requires original.Obj? && desired.Obj?
  {
    && (mainChanges == [] <==> !ChangesMain(original, desired))
    && (statusChanges == [] <==> !ChangesStatus(original, desired))
    && Patched(original, mainChanges, Main) == Some(WithStatusOf(desired, original))
    && (forall doc: Json ::
         AgreeOn(doc, original, "status") ==> Patched(doc, statusChanges, Status) == Some(WithStatusOf(doc, desired)))
  }

  lemma StatusAgain(doc: Json, source: Json)
    requires doc.Obj? && source.Obj?
    ensures WithStatusOf(WithStatusOf(doc, source), source) == WithStatusOf(doc, source)
    ensures WithStatusOf(doc, WithStatusOf(doc, source)) == WithStatusOf(doc, source)
  {
  }

  method Split(ghost original: Json, ghost desired: Json, changes: seq<Op>)
    returns (mainChanges: seq<Op>, statusChanges: seq<Op>)
    requires original.Obj? && desired.Obj? && changes == Diff(original, desired)
    ensures Halves(original, desired, mainChanges, statusChanges)
  {
    mainChanges, statusChanges := Select(changes, false), Select(changes, true);
    PartEmpty(original, desired, true);
    PartEmpty(original, desired, false);
    PartRoundTrip(original, desired, original, false);
    StatusAgain(desired, original);
    forall doc: Json | AgreeOn(doc, original, "status")
      ensures Patched(doc, statusChanges, Status) == Some(WithStatusOf(doc, desired))
    {
      PartRoundTrip(original, desired, doc, true);
      StatusAgain(doc, desired);
    }
  }

  method PersistSplit(api: Api, original: Json, desired: Json, guards: seq<Op>, mainChanges: seq<Op>,
                      statusChanges: seq<Op>,
                      others: seq<Json>, laterOthers: seq<Json>)
    returns (result: Result<Json, Refusal>)
    requires History(api.history) && original in api.history && Storable(original) && Storable(desired)
             && original != desired
    requires GuardingDoc(guards, original) && Halves(original, desired, mainChanges, statusChanges)
    requires Meta(desired, "uid") == Meta(original, "uid")
    modifies api
    ensures result.Ok? <==> Undisturbed(old(api.history), original, desired, true, others, laterOthers)
    ensures api.history == Aftermath(old(api.history), original, desired, true, others, laterOthers)
    ensures var versions := Versions(|old(api.history)|, original, desired, true);
            match result
            case Ok(value) => api.history == old(api.history) + versions && value == versions[|versions| - 1]
            case Err(error) => error == Conflict
  {
    if mainChanges == [] {
      OneHalf(original, desired);
      assert AgreeOn(original, original, "status");
      var written := Send(api, guards, statusChanges, Status, original, others, desired);
      return if written.Some? then Ok(written.value) else Err(Conflict);
    }
    var written := Send(api, guards, mainChanges, Main, original, others, WithStatusOf(desired, original));
    if written.None? { return Err(Conflict); }
    if statusChanges == [] {
      OneHalf(original, desired);
      return Ok(written.value);
    }
    result := PersistStatus(api, original, desired, written.value, guards, statusChanges, laterOthers);
  }

  method PersistStatus(api: Api, original: Json, desired: Json, current: Json, guards: seq<Op>, statusChanges: seq<Op>,
                       laterOthers: seq<Json>)
    returns (result: Result<Json, Refusal>)
    requires History(api.history) && |api.history| > 1 && api.history[|api.history| - 1] == current
    requires Storable(original) && Storable(desired) && GuardingDoc(guards, original)
    requires Meta(desired, "uid") == Meta(original, "uid")
    requires forall doc: Json :: AgreeOn(doc, original, "status") ==>
               Patched(doc, statusChanges, Status) == Some(WithStatusOf(doc, desired))
    requires current == Stamp(WithStatusOf(desired, original), |api.history| - 1)
    modifies api
    ensures result.Ok? <==> StillCurrent(old(api.history), current, laterOthers)
    ensures api.history == AfterMain(old(api.history), current, Stamp(desired, |old(api.history)|), laterOthers)
    ensures match result
            case Ok(value) => value == Stamp(desired, |old(api.history)|)
            case Err(error) => error == Conflict
  {
    ghost var n := |api.history| - 1;
    StampVersion(WithStatusOf(desired, original), n);
    StampedHalf(original, desired, n);
    if Meta(current, "uid") != Meta(original, "uid") || !Named(Meta(current, "resourceVersion")) {
      return Err(Conflict);
    }
    if Field(current, "status") != Field(original, "status") { return Err(Conflict); }
    var moved := [guards[0], Test(guards[1].path, Meta(current, "resourceVersion").value)];
    var written := Send(api, moved, statusChanges, Status, current, laterOthers, WithStatusOf(current, desired));
    result := if written.Some? then Ok(written.value) else Err(Conflict);
  }

  /** The commit: refused, empty, or exactly the versions that write `desired` right after the
      snapshot. It succeeds exactly when nobody else writes in between; after a conflict every
      version of the others is there, and of its own at most the main half. */
  method Persist(api: Api, original: Json, desired: Json, others: seq<Json>, laterOthers: seq<Json>)
    returns (result: Result<Json, Refusal>)
    requires History(api.history) && original in api.history && desired.Obj?
    modifies api
    ensures CheckIdentity(original, desired).Some? ==>
              result == Err(CheckIdentity(original, desired).value) && api.history == old(api.history)
    ensures CheckIdentity(original, desired).None? && original == desired ==>
              result == Ok(original) && api.history == old(api.history)
    ensures CheckIdentity(original, desired).None? && original != desired ==>
              && Storable(original) && Storable(desired)
              && (result.Ok?
                 <==> Undisturbed(old(api.history), original, desired, api.statusSubresource, others, laterOthers))
              && api.history
                 == Aftermath(old(api.history), original, desired, api.statusSubresource, others, laterOthers)
              && var versions := Versions(|old(api.history)|, original, desired, api.statusSubresource);
                 match result
                 case Ok(value) => api.history == old(api.history) + versions && value == versions[|versions| - 1]
                 case Err(error) => error == Conflict
  {
    var diff := GuardedDiff(original, desired);
    if diff.Err? { return Err(diff.error); }
    var operations := diff.value;
    if operations == [] { return Ok(original); }
    var guards, changes := operations[..2], operations[2..];
    if !api.statusSubresource {
      RoundTrip(original, desired);
      var written := Send(api, guards, changes, Whole, original, others, desired);
      return if written.Some? then Ok(written.value) else Err(Conflict);
    }
    var mainChanges, statusChanges := Split(original, desired, changes);
    result := PersistSplit(api, original, desired, guards, mainChanges, statusChanges, others, laterOthers);
  }
}
