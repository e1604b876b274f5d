/** What the overlay guarantees: the edit arrives (put-get), and nothing unknown is lost. */
module OverlayProofs {
  import opened Wrappers
  import opened Sequences
  import opened Json
  import opened Overlay

  // ----- matching -----

  lemma {:induction false} MatchesSelf(complete: bool, j: Json)
    ensures Matches(complete, j, j)
  {
    match j
    case Obj(f) => forall k <- f ensures Matches(complete, f[k], f[k]) { MatchesSelf(complete, f[k]); }
    case Arr(x) => forall i | 0 <= i < |x| ensures Matches(complete, x[i], x[i]) { MatchesSelf(complete, x[i]); }
    case _ =>
  }

  /** A value with everything the typed shape does not have dropped. */
  function Restrict(j: Json, shape: Json): Json {
    match (j, shape)
    case (Obj(f), Obj(s)) => Obj(map k | k in f.Keys * s.Keys :: Restrict(f[k], s[k]))
    case (Arr(x), Arr(s)) => if |x| != |s| then j else Arr(seq(|x|, i requires 0 <= i < |x| => Restrict(x[i], s[i])))
    case _ => j
  }

  /** Complete matching is equality after dropping what the type does not know. */
  lemma {:induction false} MatchesIsRestrict(j: Json, shape: Json)
    ensures Matches(true, j, shape) <==> Restrict(j, shape) == shape
  {
    match (j, shape)
    case (Obj(f), Obj(s)) =>
      forall k <- f.Keys * s.Keys
        ensures Matches(true, f[k], s[k]) <==> Restrict(f[k], s[k]) == s[k]
      {
        MatchesIsRestrict(f[k], s[k]);
      }
      var r := Restrict(j, shape).fields;
      assert r.Keys == f.Keys * s.Keys;
      if Matches(true, j, shape) { assert r == s; }
    case (Arr(x), Arr(s)) =>
      if |x| == |s| {
        forall i | 0 <= i < |x|
          ensures Matches(true, x[i], s[i]) <==> Restrict(x[i], s[i]) == s[i]
        {
          MatchesIsRestrict(x[i], s[i]);
        }
        var r := Restrict(j, shape).items;
        assert forall i :: 0 <= i < |x| ==> r[i] == Restrict(x[i], s[i]);
      }
    case _ =>
  }

  // ----- array plans -----

  lemma {:induction false} IndexOfUnique(names: seq<string>, i: nat)
    requires NoRepeats(names) && i < |names|
    ensures IndexOf(names, names[i]) == i
  {
    PairsDiffer(names);
  }

  /** Where raw and typed elements match, each old element is paired with the raw one at its place. */
  lemma PairingInPlace(complete: bool, raw: seq<Json>, before: seq<Json>, after: seq<Json>, b: nat)
    requires |raw| == |before| && b < |before| && forall i :: 0 <= i < |raw| ==> Matches(complete, raw[i], before[i])
    requires ListPlan(raw, before, after).Some?
    ensures ListPlan(raw, before, after).value.pairing[b] == b
  {
    var oldNames, rawNames := Names(before), Names(raw);
    if oldNames.Some? && rawNames.Some? {
      forall i | 0 <= i < |raw| ensures rawNames.value[i] == oldNames.value[i] { SameName(complete, raw, before, i); }
      assert rawNames.value == oldNames.value;
      IndexOfUnique(rawNames.value, b);
    }
  }

  lemma SameName(complete: bool, raw: seq<Json>, before: seq<Json>, i: nat)
    requires |raw| == |before| && i < |raw| && Matches(complete, raw[i], before[i])
    requires Names(before).Some? && Names(raw).Some?
    ensures NameOf(raw[i]) == NameOf(before[i])
  {
    assert AllNames(raw)[i] in AllNames(raw) && AllNames(before)[i] in AllNames(before);
    assert "name" in raw[i].fields.Keys * before[i].fields.Keys;
  }

  // ----- put-get -----

  /** The edit arrives: a value that matched `before` becomes one that matches `after`, and one
      that covered `before` completely covers `after` completely. */
  lemma {:induction false} PutGet(complete: bool, raw: Maybe, before: Maybe, after: Json, oldSet: Maybe, newSet: Maybe)
    requires raw.Some? && before.Some? ==> Matches(complete, raw.value, before.value)
    requires complete && before.Some? ==> raw.Some?
    requires OverlayValue(raw, before, after, oldSet, newSet).Kept?
    ensures var result := OverlayValue(raw, before, after, oldSet, newSet).value;
            (complete ==> result.Some?) && (result.Some? ==> Matches(complete, result.value, after))
    decreases after, 1
  {
    if before == Some(after) && (raw.Some? || oldSet == newSet) && (!IsContainer(after) || oldSet == newSet) {
    } else if before.Some? && before.value.Obj? && after.Obj? {
      PutGetFields(complete, raw, before.value, after, oldSet, newSet);
    } else if before.Some? && before.value.Arr? && after.Arr? && raw.Some? && raw.value.Arr? {
      PutGetItems(complete, raw.value.items, before.value.items, after, oldSet, newSet);
    } else {
      MatchesSelf(complete, after);
    }
  }

  lemma {:induction false} PutGetFields(complete: bool, raw: Maybe, before: Json, after: Json, oldSet: Maybe,
                                        newSet: Maybe)
    requires before.Obj? && after.Obj? && (raw.Some? ==> Matches(complete, raw.value, before))
             && (complete ==> raw.Some?)
    requires OverlayFields(raw, before, after, oldSet, newSet).Kept?
    ensures var result := OverlayFields(raw, before, after, oldSet, newSet).value;
            (complete ==> result.Some?) && (result.Some? ==> Matches(complete, result.value, after))
    decreases after, 0
  {
    var result := OverlayFields(raw, before, after, oldSet, newSet).value;
    forall k <- after.fields
      ensures var child := Child(raw, before, after, oldSet, newSet, k);
              && child.Kept? && (complete ==> child.value.Some?)
              && (child.value.Some? ==> Matches(complete, child.value.value, after.fields[k]))
    {
      assert Child(raw, before, after, oldSet, newSet, k).Kept?;
      PutGet(complete, Get(raw, k), Get(Some(before), k), after.fields[k], Get(oldSet, k), Get(newSet, k));
    }
    if result.Some? {
      forall k <- result.value.fields.Keys * after.fields.Keys
        ensures Matches(complete, result.value.fields[k], after.fields[k])
      {
        assert result.value.fields[k] == Child(raw, before, after, oldSet, newSet, k).value.value;
      }
      if complete {
        forall k <- after.fields
          ensures k in result.value.fields
        {
          assert Child(raw, before, after, oldSet, newSet, k).value.Some?;
        }
      }
    }
  }

  lemma {:induction false} PutGetItems(complete: bool, raw: seq<Json>, before: seq<Json>, after: Json, oldSet: Maybe,
                                       newSet: Maybe)
    requires after.Arr? && Matches(complete, Arr(raw), Arr(before))
    requires OverlayItems(raw, before, after, oldSet, newSet).Kept?
    ensures Matches(complete, OverlayItems(raw, before, after, oldSet, newSet).value.value, after)
    decreases after, 0
  {
    var plan := ListPlan(raw, before, after.items).value;
    forall i | 0 <= i < |after.items|
      ensures var element := Element(raw, before, after, oldSet, newSet, plan, i);
              element.Kept? && Matches(complete, element.value.value, after.items[i])
    {
      assert Element(raw, before, after, oldSet, newSet, plan, i).Kept?;
      match plan.sources[i]
      case None => MatchesSelf(complete, after.items[i]);
      case Some(b) =>
        assert plan.sources[i] in plan.sources;
        PairingInPlace(complete, raw, before, after.items, b);
        PutGet(complete, Some(raw[b]), Some(before[b]), after.items[i], Item(oldSet, b), Item(newSet, i));
    }
  }

  // ----- nothing unknown is lost -----

  ghost predicate Injective(s: seq<nat>) { forall i, j :: 0 <= i < j < |s| ==> s[i] != s[j] }

  ghost predicate UsedOnce(sources: seq<Option<nat>>) {
    forall i, j :: 0 <= i < j < |sources| && sources[i].Some? ==> sources[i] != sources[j]
  }

  /** No raw element is reused, and when the edit brings a new element, every element it leaves
      out was fully known. */
  ghost predicate Safe(plan: Plan, raw: seq<Json>, before: seq<Json>, after: seq<Json>) {
    && Fits(plan, raw, before, after) && Injective(plan.pairing) && UsedOnce(plan.sources)
    && (None in plan.sources ==>
          forall b :: 0 <= b < |before| && Some(b) !in plan.sources ==>
            plan.pairing[b] in plan.pairing && !Unknown(raw[plan.pairing[b]], before[b]))
  }

  /** A new element leaves out only old ones whose name is gone. */
  lemma LeftOut(oldNames: seq<string>, newNames: seq<string>, plan: Plan, b: nat)
    requires NoRepeats(oldNames) && b < |oldNames| && Some(b) !in plan.sources && |plan.sources| == |newNames|
    requires forall i :: 0 <= i < |newNames| ==>
               plan.sources[i] == if newNames[i] in oldNames then Some(IndexOf(oldNames, newNames[i])) else None
    ensures oldNames[b] !in newNames
  {
    if oldNames[b] in newNames {
      var i :| 0 <= i < |newNames| && newNames[i] == oldNames[b];
      assert plan.sources[i] in plan.sources;
      IndexOfUnique(oldNames, b);
    }
  }

  /** Names tell elements apart, so positions found by name are used once. */
  lemma FoundOnce(names: seq<string>, wanted: seq<string>, found: seq<nat>)
    requires NoRepeats(wanted) && |found| == |wanted|
    requires forall i :: 0 <= i < |found| ==> found[i] < |names| && names[found[i]] == wanted[i]
    ensures Injective(found)
  {
    PairsDiffer(wanted);
  }

  lemma SourcedOnce(names: seq<string>, wanted: seq<string>, sources: seq<Option<nat>>)
    requires NoRepeats(wanted) && |sources| == |wanted|
    requires forall i :: 0 <= i < |sources| && sources[i].Some? ==>
               sources[i].value < |names| && names[sources[i].value] == wanted[i]
    ensures UsedOnce(sources)
  {
    PairsDiffer(wanted);
  }

  /** A new name replaces only elements that hold nothing unknown. */
  lemma NewNames(raw: seq<Json>, before: seq<Json>, after: seq<Json>, b: nat)
    requires |raw| == |before| && Names(before).Some?
    requires NamedPlan(raw, before, AllNames(raw), AllNames(before), AllNames(after)).Some?
    requires var plan := NamedPlan(raw, before, AllNames(raw), AllNames(before), AllNames(after)).value;
             None in plan.sources && b < |before| && Some(b) !in plan.sources
    ensures var plan := NamedPlan(raw, before, AllNames(raw), AllNames(before), AllNames(after)).value;
            plan.pairing[b] in plan.pairing && !Unknown(raw[plan.pairing[b]], before[b])
  {
    var oldNames, newNames := AllNames(before), AllNames(after);
    var plan := NamedPlan(raw, before, AllNames(raw), oldNames, newNames).value;
    var i :| 0 <= i < |plan.sources| && plan.sources[i] == None;
    assert newNames[i] in newNames && newNames[i] !in oldNames;
    LeftOut(oldNames, newNames, plan, b);
  }

  lemma NamedPlanSafe(raw: seq<Json>, before: seq<Json>, after: seq<Json>)
    requires |raw| == |before| && Names(before).Some? && Names(after).Some? && Names(raw).Some?
    requires NamedPlan(raw, before, AllNames(raw), AllNames(before), AllNames(after)).Some?
    ensures Safe(NamedPlan(raw, before, AllNames(raw), AllNames(before), AllNames(after)).value, raw, before, after)
  {
    var rawNames, oldNames, newNames := AllNames(raw), AllNames(before), AllNames(after);
    var plan := NamedPlan(raw, before, rawNames, oldNames, newNames).value;
    FoundOnce(rawNames, oldNames, plan.pairing);
    SourcedOnce(oldNames, newNames, plan.sources);
    if None in plan.sources {
      forall b | 0 <= b < |before| && Some(b) !in plan.sources
        ensures plan.pairing[b] in plan.pairing && !Unknown(raw[plan.pairing[b]], before[b])
      {
        NewNames(raw, before, after, b);
      }
    }
  }

  /** The next element takes an unused old one equal to it, or none. */
  lemma NextSource(raw: seq<Json>, before: seq<Json>, after: seq<Json>, n: nat) returns (next: Option<nat>)
    requires |raw| == |before| && n < |after| && Sources(raw, before, after, n + 1).Some?
    ensures Sources(raw, before, after, n).Some?
    ensures var done := Sources(raw, before, after, n).value;
            && Sources(raw, before, after, n + 1).value == done + [next]
            && (next.Some? ==> next.value < |before| && next.value !in Used(done) && before[next.value] == after[n])
  {
    var done := Sources(raw, before, after, n).value;
    var c := Candidates(before, after[n], Used(done), |before|);
    if c == [] {
      next := None;
    } else {
      assert c[0] in c;
      next := Some(c[0]);
    }
  }

  lemma UsedOnceAppend(done: seq<Option<nat>>, next: Option<nat>)
    requires UsedOnce(done) && (next.Some? ==> next.value !in Used(done))
    ensures UsedOnce(done + [next])
  {
    forall i | 0 <= i < |done| && done[i].Some? ensures done[i] != next { assert done[i] in done; }
  }

  lemma {:induction false} SourcesUsedOnce(raw: seq<Json>, before: seq<Json>, after: seq<Json>, n: nat,
                                           found: seq<Option<nat>>)
    requires |raw| == |before| && n <= |after| && Sources(raw, before, after, n) == Some(found)
    ensures UsedOnce(found)
  {
    if n > 0 {
      var next := NextSource(raw, before, after, n - 1);
      var done := found[..n - 1];
      assert found == done + [next];
      SourcesUsedOnce(raw, before, after, n - 1, done);
      UsedOnceAppend(done, next);
    }
  }

  lemma UnnamedPlanSafe(raw: seq<Json>, before: seq<Json>, after: seq<Json>)
    requires |raw| == |before| && UnnamedPlan(raw, before, after).Some?
    ensures Safe(UnnamedPlan(raw, before, after).value, raw, before, after)
  {
    var sources := Sources(raw, before, after, |after|).value;
    SourcesUsedOnce(raw, before, after, |after|, sources);
    var plan := UnnamedPlan(raw, before, after).value;
    if |before| == |after| && InPlace(sources) {
      assert forall s <- plan.sources :: s.Some?;
    } else {
      forall b | 0 <= b < |before| && b in Used(sources) ensures Some(b) in sources {}
    }
  }

  lemma PlanSafe(raw: seq<Json>, before: seq<Json>, after: seq<Json>)
    requires ListPlan(raw, before, after).Some?
    ensures Safe(ListPlan(raw, before, after).value, raw, before, after)
  {
    if Names(before).Some? && Names(after).Some? && Names(raw).Some? {
      NamedPlanSafe(raw, before, after);
    } else {
      UnnamedPlanSafe(raw, before, after);
    }
  }

  /** The result keeps everything of the raw value that neither side of the edit knows, however
      deep; elements of arrays are carried over by a safe plan. */
  ghost predicate Conserved(raw: Json, before: Json, after: Json, result: Json)
    decreases after, 1
  {
    || result == raw
    || (&& (raw.Obj? && before.Obj? && after.Obj? ==> FieldsConserved(raw, before, after, result))
        && (raw.Arr? && before.Arr? && after.Arr? ==> exists plan :: ItemsConserved(raw, before, after, result, plan)))
  }

  ghost predicate FieldsConserved(raw: Json, before: Json, after: Json, result: Json)
    requires raw.Obj? && before.Obj? && after.Obj?
    decreases after, 0
  {
    && result.Obj?
    && var r, b, a, o := raw.fields, before.fields, after.fields, result.fields;
       && (forall k <- r.Keys - b.Keys - a.Keys :: k in o && o[k] == r[k])
       && (forall k <- r.Keys * b.Keys * a.Keys :: k in o && Conserved(r[k], b[k], a[k], o[k]))
       && o.Keys <= (r.Keys - b.Keys) + a.Keys
  }

  ghost predicate ItemsConserved(raw: Json, before: Json, after: Json, result: Json, plan: Plan)
    requires raw.Arr? && before.Arr? && after.Arr?
    decreases after, 0
  {
    && result.Arr?
    && var r, b, a, o := raw.items, before.items, after.items, result.items;
       && |o| == |a| && Safe(plan, r, b, a)
       && forall i :: 0 <= i < |a| ==>
            if plan.sources[i].None? then o[i] == a[i]
            else
              var s := plan.sources[i].value;
              s < |b| && plan.pairing[s] < |r| && Conserved(r[plan.pairing[s]], b[s], a[i], o[i])
  }

  lemma {:induction false} Conservation(raw: Json, before: Json, after: Json, oldSet: Maybe, newSet: Maybe)
    requires OverlayValue(Some(raw), Some(before), after, oldSet, newSet).Kept?
    ensures Conserved(raw, before, after, OverlayValue(Some(raw), Some(before), after, oldSet, newSet).value.value)
    decreases after, 1
  {
    var result := OverlayValue(Some(raw), Some(before), after, oldSet, newSet).value.value;
    if result == raw {
    } else if raw.Obj? && before.Obj? && after.Obj? {
      ConservationFields(raw, before, after, oldSet, newSet);
    } else if raw.Arr? && before.Arr? && after.Arr? {
      ConservationItems(raw, before, after, oldSet, newSet);
    }
  }

  lemma {:induction false} ConservationFields(raw: Json, before: Json, after: Json, oldSet: Maybe, newSet: Maybe)
    requires raw.Obj? && before.Obj? && after.Obj? && OverlayFields(Some(raw), before, after, oldSet, newSet).Kept?
    ensures FieldsConserved(raw, before, after, OverlayFields(Some(raw), before, after, oldSet, newSet).value.value)
    decreases after, 0
  {
    var output := Output(Some(raw), before, after, oldSet, newSet);
    forall k <- raw.fields.Keys * before.fields.Keys * after.fields.Keys
      ensures k in output && Conserved(raw.fields[k], before.fields[k], after.fields[k], output[k])
    {
      assert Child(Some(raw), before, after, oldSet, newSet, k).value.Some?;
      Conservation(raw.fields[k], before.fields[k], after.fields[k], Get(oldSet, k), Get(newSet, k));
    }
  }

  lemma {:induction false} ConservationItems(raw: Json, before: Json, after: Json, oldSet: Maybe, newSet: Maybe)
    requires raw.Arr? && before.Arr? && after.Arr? && OverlayItems(raw.items, before.items, after, oldSet, newSet).Kept?
    ensures exists plan ::
              ItemsConserved(raw, before, after,
                             OverlayItems(raw.items, before.items, after, oldSet, newSet).value.value, plan)
    decreases after, 0
  {
    var plan := ListPlan(raw.items, before.items, after.items).value;
    var result := OverlayItems(raw.items, before.items, after, oldSet, newSet).value.value;
    PlanSafe(raw.items, before.items, after.items);
    forall i | 0 <= i < |after.items| && plan.sources[i].Some?
      ensures var s := plan.sources[i].value;
              && s < |before.items| && plan.pairing[s] < |raw.items|
              && Conserved(raw.items[plan.pairing[s]], before.items[s], after.items[i], result.items[i])
    {
      var s := plan.sources[i].value;
      assert plan.sources[i] in plan.sources && plan.pairing[s] in plan.pairing;
      assert Element(raw.items, before.items, after, oldSet, newSet, plan, i).Kept?;
      Conservation(raw.items[plan.pairing[s]], before.items[s], after.items[i], Item(oldSet, s), Item(newSet, i));
    }
    assert ItemsConserved(raw, before, after, result, plan);
  }

  // ----- the result as a loop gathers it -----

  /** The first elements of the result. */
  ghost predicate Gathered(raw: seq<Json>, before: seq<Json>, after: Json, oldSet: Maybe, newSet: Maybe, plan: Plan,
                           output: seq<Json>)
    requires after.Arr? && Fits(plan, raw, before, after.items)
  {
    && |output| <= |after.items|
    && forall j :: 0 <= j < |output| ==> Element(raw, before, after, oldSet, newSet, plan, j) == Kept(Some(output[j]))
  }

  lemma GatheredNext(raw: seq<Json>, before: seq<Json>, after: Json, oldSet: Maybe, newSet: Maybe, plan: Plan,
                     output: seq<Json>, value: Json)
    requires after.Arr? && Fits(plan, raw, before, after.items) && |output| < |after.items|
    requires Gathered(raw, before, after, oldSet, newSet, plan, output)
    requires Element(raw, before, after, oldSet, newSet, plan, |output|) == Kept(Some(value))
    ensures Gathered(raw, before, after, oldSet, newSet, plan, output + [value])
  {
    var longer := output + [value];
    forall j | 0 <= j < |longer|
      ensures Element(raw, before, after, oldSet, newSet, plan, j) == Kept(Some(longer[j]))
    {
      if j < |output| { assert longer[j] == output[j]; }
    }
  }

  lemma RefusedElement(raw: seq<Json>, before: seq<Json>, after: Json, oldSet: Maybe, newSet: Maybe, plan: Plan, i: nat)
    requires after.Arr? && ListPlan(raw, before, after.items) == Some(plan) && i < |after.items|
    requires Element(raw, before, after, oldSet, newSet, plan, i).Refused?
    ensures OverlayItems(raw, before, after, oldSet, newSet) == Refused
  {
    assert SomeElementRefused(raw, before, after, oldSet, newSet, plan);
  }

  lemma GatheredAll(raw: seq<Json>, before: seq<Json>, after: Json, oldSet: Maybe, newSet: Maybe, plan: Plan,
                    output: seq<Json>)
    requires after.Arr? && ListPlan(raw, before, after.items) == Some(plan)
    requires Gathered(raw, before, after, oldSet, newSet, plan, output) && |output| == |after.items|
    ensures OverlayItems(raw, before, after, oldSet, newSet) == Kept(Some(Arr(output)))
  {
    assert !SomeElementRefused(raw, before, after, oldSet, newSet, plan);
    var elements := Elements(raw, before, after, oldSet, newSet, plan);
    assert forall j :: 0 <= j < |elements| ==> elements[j] == output[j];
    assert elements == output;
  }
}
