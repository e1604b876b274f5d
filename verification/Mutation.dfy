/** The admission mutation itself: the overlay filled in by loops, and the patch it leads to. */
module Mutation {
  import opened Wrappers
  import opened Sequences
  import opened Json
  import opened JsonPatch
  import opened JsonPatchProofs
  import opened Overlay
  import opened OverlayProofs
  import opened OverlayKnown
  import opened OverlayExact

  // ----- arrays -----

  lemma UsedAppend(sources: seq<Option<nat>>, next: Option<nat>)
    ensures Used(sources + [next]) == Used(sources) + (if next.Some? then {next.value} else {})
  {
    forall s <- sources + [next] ensures s in sources || s == next {}
    assert forall s <- sources :: s in sources + [next];
    assert next in sources + [next];
  }

  lemma SourcesNext(raw: seq<Json>, before: seq<Json>, after: seq<Json>, n: nat, found: seq<Option<nat>>)
    requires |raw| == |before| && n < |after| && Sources(raw, before, after, n) == Some(found)
    ensures var c := Candidates(before, after[n], Used(found), |before|);
            Sources(raw, before, after, n + 1)
            == if c == [] then Some(found + [None])
               else if RawDiffers(raw, c) then None
               else Some(found + [Some(c[0])])
  {
  }

  lemma {:induction false} SourcesStop(raw: seq<Json>, before: seq<Json>, after: seq<Json>, n: nat, m: nat)
    requires |raw| == |before| && n <= m <= |after| && Sources(raw, before, after, n).None?
    ensures Sources(raw, before, after, m).None?
    decreases m - n
  {
    if n < m { SourcesStop(raw, before, after, n + 1, m); }
  }

  method FindSources(raw: seq<Json>, before: seq<Json>, after: seq<Json>) returns (matches: Option<seq<Option<nat>>>)
    requires |raw| == |before|
    ensures matches == Sources(raw, before, after, |after|)
  {
    var found: seq<Option<nat>> := [];
    var used: set<nat> := {};
    for j := 0 to |after|
      invariant Sources(raw, before, after, j) == Some(found) && used == Used(found)
    {
      var candidates := Candidates(before, after[j], used, |before|);
      SourcesNext(raw, before, after, j, found);
      var next: Option<nat> := None;
      if candidates != [] {
        if RawDiffers(raw, candidates) {
          SourcesStop(raw, before, after, j + 1, |after|);
          return None;
        }
        next, used := Some(candidates[0]), used + {candidates[0]};
      }
      UsedAppend(found, next);
      found := found + [next];
    }
    matches := Some(found);
  }

  method ComputeUnnamedPlan(raw: seq<Json>, before: seq<Json>, after: seq<Json>) returns (plan: Option<Plan>)
    requires |raw| == |before|
    ensures plan == UnnamedPlan(raw, before, after)
  {
    if exists i :: 0 <= i < |raw| && !Matches(false, raw[i], before[i]) { return None; }
    var found := FindSources(raw, before, after);
    if found.None? { return None; }
    var sources := found.value;
    if |before| == |after| && InPlace(sources) {
      if Count(sources, None) > 1 && exists i :: 0 <= i < |raw| && sources[i].None? && Unknown(raw[i], before[i]) {
        return None;
      }
      return Some(Plan(Identity(|before|), seq(|after|, i requires 0 <= i < |after| => Some(i))));
    }
    if None in sources && exists i :: 0 <= i < |raw| && i !in Used(sources) && Unknown(raw[i], before[i]) {
      return None;
    }
    plan := Some(Plan(Identity(|before|), sources));
  }

  method ComputePlan(raw: seq<Json>, before: seq<Json>, after: seq<Json>) returns (plan: Option<Plan>)
    ensures plan == ListPlan(raw, before, after)
  {
    if |before| != |raw| { return None; }
    var oldNames, newNames, rawNames := Names(before), Names(after), Names(raw);
    if oldNames.Some? && newNames.Some? && rawNames.Some? {
      return NamedPlan(raw, before, rawNames.value, oldNames.value, newNames.value);
    }
    plan := ComputeUnnamedPlan(raw, before, after);
  }

  // ----- the overlay -----

  method ComputeOverlay(raw: Maybe, before: Maybe, after: Json, oldSet: Maybe, newSet: Maybe) returns (result: Outcome)
    ensures result == OverlayValue(raw, before, after, oldSet, newSet)
    decreases after, 1
  {
    if before == Some(after) && (raw.Some? || oldSet == newSet) {
      if !IsContainer(after) || oldSet == newSet { return Kept(raw); }
    }
    if before.Some? && before.value.Obj? && after.Obj? {
      result := ComputeFields(raw, before.value, after, oldSet, newSet);
    } else if before.Some? && before.value.Arr? && after.Arr? && raw.Some? && raw.value.Arr? {
      result := ComputeItems(raw.value.items, before.value.items, after, oldSet, newSet);
    } else {
      result := Kept(Some(after));
    }
  }

  function Base(raw: Maybe): map<string, Json> {
    if raw.Some? && raw.value.Obj? then raw.value.fields else map[]
  }

  /** What a key of the output holds once it has been visited. */
  ghost function Settled(raw: Maybe, before: Json, after: Json, oldSet: Maybe, newSet: Maybe, key: string): Maybe
    requires before.Obj? && after.Obj?
  {
    if key in after.fields then
      var child := Child(raw, before, after, oldSet, newSet, key);
      if child.Kept? then child.value else None
    else if key in before.fields then None
    else Get(raw, key)
  }

  /** The output while `left` still has to be visited. */
  ghost predicate Partial(raw: Maybe, before: Json, after: Json, oldSet: Maybe, newSet: Maybe, left: set<string>,
                          output: map<string, Json>)
    requires before.Obj? && after.Obj?
  {
    && (forall k <- after.fields.Keys - left :: Child(raw, before, after, oldSet, newSet, k).Kept?)
    && (forall k ::
         Get(Some(Obj(output)), k) == if k in left then Get(raw, k) else Settled(raw, before, after, oldSet, newSet, k))
  }

  lemma PartialStep(raw: Maybe, before: Json, after: Json, oldSet: Maybe, newSet: Maybe, left: set<string>,
                    output: map<string, Json>, key: string, next: map<string, Json>)
    requires before.Obj? && after.Obj? && key in left && Partial(raw, before, after, oldSet, newSet, left, output)
    requires key in after.fields ==> Child(raw, before, after, oldSet, newSet, key).Kept?
    requires next - {key} == output - {key}
    requires Get(Some(Obj(next)), key) == Settled(raw, before, after, oldSet, newSet, key)
    requires left <= before.fields.Keys + after.fields.Keys
    ensures Partial(raw, before, after, oldSet, newSet, left - {key}, next)
  {
    forall k
      ensures Get(Some(Obj(next)), k) == if k in left - {key} then Get(raw, k)
              else Settled(raw, before, after, oldSet, newSet, k)
    {
      if k != key {
        assert k in next <==> k in next - {key};
        assert k in output <==> k in output - {key};
        assert k in next ==> (next - {key})[k] == (output - {key})[k];
        assert Get(Some(Obj(next)), k) == Get(Some(Obj(output)), k);
      }
    }
  }

  lemma PartialEnd(raw: Maybe, before: Json, after: Json, oldSet: Maybe, newSet: Maybe, output: map<string, Json>)
    requires before.Obj? && after.Obj? && Partial(raw, before, after, oldSet, newSet, {}, output)
    ensures !SomeRefused(raw, before, after, oldSet, newSet) && output == Output(raw, before, after, oldSet, newSet)
  {
    var goal := Output(raw, before, after, oldSet, newSet);
    forall k ensures Get(Some(Obj(output)), k) == Get(Some(Obj(goal)), k) {
      assert Get(Some(Obj(output)), k) == Settled(raw, before, after, oldSet, newSet, k);
      if k in after.fields { assert Child(raw, before, after, oldSet, newSet, k).Kept?; }
    }
    assert forall k :: k in output <==> Get(Some(Obj(output)), k).Some?;
  }

  method ComputeFields(raw: Maybe, before: Json, after: Json, oldSet: Maybe, newSet: Maybe) returns (result: Outcome)
    requires before.Obj? && after.Obj?
    ensures result == OverlayFields(raw, before, after, oldSet, newSet)
    decreases after, 0, 0
  {
    var output := Base(raw);
    var left := before.fields.Keys + after.fields.Keys;
    while left != {}
      invariant left <= before.fields.Keys + after.fields.Keys
      invariant Partial(raw, before, after, oldSet, newSet, left, output)
      decreases left
    {
      var key :| key in left;
      ghost var previous := output;
      if key !in after.fields {
        output := output - {key};
      } else {
        assert Get(Some(Obj(output)), key) == Get(raw, key);
        var value := ComputeOverlay(Get(Some(Obj(output)), key), Get(Some(before), key), after.fields[key],
                                    Get(oldSet, key), Get(newSet, key));
        assert value == Child(raw, before, after, oldSet, newSet, key);
        if value.Refused? { return Refused; }
        if value.value.Some? { output := output[key := value.value.value]; }
      }
      PartialStep(raw, before, after, oldSet, newSet, left, previous, key, output);
      left := left - {key};
    }
    PartialEnd(raw, before, after, oldSet, newSet, output);
    result := Kept(if output != map[] || raw.Some? then Some(Obj(output)) else None);
  }

  method ComputeItems(raw: seq<Json>, before: seq<Json>, after: Json, oldSet: Maybe, newSet: Maybe)
    returns (result: Outcome)
    requires after.Arr?
    ensures result == OverlayItems(raw, before, after, oldSet, newSet)
    decreases after, 0, 1
  {
    var plan := ComputePlan(raw, before, after.items);
    if plan.None? { return Refused; }
    var output := [];
    for i := 0 to |after.items|
      invariant |output| == i && Gathered(raw, before, after, oldSet, newSet, plan.value, output)
    {
      var element := ComputeElement(raw, before, after, oldSet, newSet, plan.value, i);
      if element.Refused? {
        RefusedElement(raw, before, after, oldSet, newSet, plan.value, i);
        return Refused;
      }
      GatheredNext(raw, before, after, oldSet, newSet, plan.value, output, element.value.value);
      output := output + [element.value.value];
    }
    GatheredAll(raw, before, after, oldSet, newSet, plan.value, output);
    result := Kept(Some(Arr(output)));
  }

  method ComputeElement(raw: seq<Json>, before: seq<Json>, after: Json, oldSet: Maybe, newSet: Maybe, plan: Plan,
                        i: nat)
    returns (element: Outcome)
    requires after.Arr? && i < |after.items| && Fits(plan, raw, before, after.items)
    ensures element == Element(raw, before, after, oldSet, newSet, plan, i)
    decreases after, 0, 0
  {
    var source := plan.sources[i];
    if source.None? { return Kept(Some(after.items[i])); }
    var b := source.value;
    assert source in plan.sources && plan.pairing[b] in plan.pairing;
    element := ComputeOverlay(Some(raw[plan.pairing[b]]), Some(before[b]), after.items[i], Item(oldSet, b),
                              Item(newSet, i));
  }

  // ----- the patch -----

  datatype MutationError = KindChanged | IdentityChanged | Unsafe

  const IDENTITY := ["name", "namespace", "uid", "resourceVersion"]

  /** The value of a metadata field; null counts as absent. */
  function MetaValue(doc: Json, key: string): Maybe {
    var value := Get(Get(Some(doc), "metadata"), key);
    if value == Some(Null) then None else value
  }

  predicate SameKind(before: Json, after: Json) {
    Get(Some(before), "apiVersion") == Get(Some(after), "apiVersion")
    && Get(Some(before), "kind") == Get(Some(after), "kind")
  }

  predicate SameIdentity(before: Json, after: Json) {
    forall k <- IDENTITY :: MetaValue(before, k) == MetaValue(after, k)
  }

  /** The patch turns the raw object into the overlaid one: the edit arrives, but for omitted
      fields edited silently, and nothing else is taken away. It is refused exactly when an array
      edit is blocked somewhere, and that only to protect raw data. */
  method MutationPatch(raw: Json, before: Json, after: Json, oldSet: Json, newSet: Json)
    returns (result: Result<seq<Op>, MutationError>)
    ensures result == Err(KindChanged) <==> !SameKind(before, after)
    ensures result == Err(IdentityChanged) <==> SameKind(before, after) && !SameIdentity(before, after)
    ensures before == after && oldSet == newSet ==> result == Ok([])
    ensures result.Ok? ==> Apply(result.value, raw).Some?
    ensures result.Ok? ==> var final := Apply(result.value, raw).value;
            && (forall complete :: Matches(complete, raw, before) ==> Matches(complete, final, after))
            && Conserved(raw, before, after, final)
            && Shown(Some(raw), Some(before), after, Some(oldSet), Some(newSet), Some(final))
            && OverlayValue(Some(raw), Some(before), after, Some(oldSet), Some(newSet)) == Kept(Some(final))
    ensures result == Err(Unsafe) ==> !Matches(true, raw, before) || Unknown(raw, before)
    ensures result == Err(Unsafe)
            <==> SameKind(before, after) && SameIdentity(before, after)
                 && Blocked(Some(raw), Some(before), after, Some(oldSet), Some(newSet))
  {
    if !SameKind(before, after) { return Err(KindChanged); }
    if !SameIdentity(before, after) { return Err(IdentityChanged); }
    var desired := ComputeOverlay(Some(raw), Some(before), after, Some(oldSet), Some(newSet));
    RefusedExact(Some(raw), Some(before), after, Some(oldSet), Some(newSet));
    if desired.Refused? {
      RefusalProtects(raw, before, after, Some(oldSet), Some(newSet));
      return Err(Unsafe);
    }
    var final := desired.value.value;
    Conservation(raw, before, after, Some(oldSet), Some(newSet));
    EditShown(Some(raw), Some(before), after, Some(oldSet), Some(newSet));
    forall complete | Matches(complete, raw, before) ensures Matches(complete, final, after) {
      PutGet(complete, Some(raw), Some(before), after, Some(oldSet), Some(newSet));
    }
    RoundTrip(raw, final);
    DiffOfEqual(raw);
    var patch := ComputePatch(raw, final);
    result := Ok(patch);
  }
}
