/** Exactly which edits are refused, and exactly what the result of the others is, in terms of
    what is set, of names, of equality and of unknown data. */
module OverlayExact {
  import opened Wrappers
  import opened Json
  import opened Overlay
  import opened OverlayPlans

  /** The edit leaves this value alone, and what is set of it. */
  predicate Untouched(before: Maybe, after: Json, oldSet: Maybe, newSet: Maybe) {
    before == Some(after) && oldSet == newSet
  }

  // ----- refusals -----

  /** Some array edit inside the value is refused. */
  ghost predicate Blocked(raw: Maybe, before: Maybe, after: Json, oldSet: Maybe, newSet: Maybe)
    decreases after, 1
  {
    && !Untouched(before, after, oldSet, newSet) && before.Some?
    && match (before.value, after)
       case (Obj(_), Obj(fields)) =>
         exists k <- fields :: Blocked(Get(raw, k), Get(before, k), fields[k], Get(oldSet, k), Get(newSet, k))
       case (Arr(items), Arr(_)) =>
         raw.Some? && raw.value.Arr? && ItemsBlocked(raw.value.items, items, after, oldSet, newSet)
       case _ => false
  }

  ghost predicate ItemsBlocked(raw: seq<Json>, before: seq<Json>, after: Json, oldSet: Maybe, newSet: Maybe)
    requires after.Arr?
    decreases after, 0, 3
  {
    || ItemsRefused(raw, before, after.items)
    || AnyBlocked(raw, before, after, oldSet, newSet)
  }

  ghost predicate AnyBlocked(raw: seq<Json>, before: seq<Json>, after: Json, oldSet: Maybe, newSet: Maybe)
    requires after.Arr?
    decreases after, 0, 2
  {
    exists j: nat | j < |after.items| :: SomeBlocked(raw, before, after, oldSet, newSet, j)
  }

  ghost predicate SomeBlocked(raw: seq<Json>, before: seq<Json>, after: Json, oldSet: Maybe, newSet: Maybe, j: nat)
    requires after.Arr? && j < |after.items|
    decreases after, 0, 1
  {
    exists b: nat, r: nat | b < |before| && r < |raw| :: ElementBlocked(raw, before, after, oldSet, newSet, j, b, r)
  }

  /** The edit of one element is blocked. */
  ghost predicate ElementBlocked(raw: seq<Json>, before: seq<Json>, after: Json, oldSet: Maybe, newSet: Maybe,
                                 j: nat, b: nat, r: nat)
    requires after.Arr? && j < |after.items| && b < |before| && r < |raw|
    decreases after, 0, 0
  {
    && Corresponds(raw, before, after.items, j, b, r)
    && Blocked(Some(raw[r]), Some(before[b]), after.items[j], Item(oldSet, b), Item(newSet, j))
  }

  /** The overlay refuses exactly the blocked edits. */
  lemma {:induction false} RefusedExact(raw: Maybe, before: Maybe, after: Json, oldSet: Maybe, newSet: Maybe)
    ensures OverlayValue(raw, before, after, oldSet, newSet).Refused? <==> Blocked(raw, before, after, oldSet, newSet)
    decreases after, 1
  {
    if !Untouched(before, after, oldSet, newSet) && before.Some? {
      if before.value.Obj? && after.Obj? {
        RefusedFields(raw, before.value, after, oldSet, newSet);
      } else if before.value.Arr? && after.Arr? && raw.Some? && raw.value.Arr? {
        RefusedItems(raw.value.items, before.value.items, after, oldSet, newSet);
      }
    }
  }

  lemma {:induction false} RefusedFields(raw: Maybe, before: Json, after: Json, oldSet: Maybe, newSet: Maybe)
    requires before.Obj? && after.Obj?
    ensures OverlayFields(raw, before, after, oldSet, newSet).Refused? <==>
            exists k <- after.fields ::
              Blocked(Get(raw, k), Get(Some(before), k), after.fields[k], Get(oldSet, k), Get(newSet, k))
    decreases after, 0
  {
    forall k <- after.fields
      ensures Child(raw, before, after, oldSet, newSet, k).Refused? <==>
              Blocked(Get(raw, k), Get(Some(before), k), after.fields[k], Get(oldSet, k), Get(newSet, k))
    {
      RefusedExact(Get(raw, k), Get(Some(before), k), after.fields[k], Get(oldSet, k), Get(newSet, k));
    }
  }

  lemma {:induction false} RefusedItems(raw: seq<Json>, before: seq<Json>, after: Json, oldSet: Maybe, newSet: Maybe)
    requires after.Arr?
    ensures OverlayItems(raw, before, after, oldSet, newSet).Refused?
            <==> ItemsBlocked(raw, before, after, oldSet, newSet)
    decreases after, 0, 3
  {
    ItemsRefusedExact(raw, before, after.items);
    if ListPlan(raw, before, after.items).Some? {
      RefusedElements(raw, before, after, oldSet, newSet, ListPlan(raw, before, after.items).value);
    }
  }

  lemma {:induction false} RefusedElements(raw: seq<Json>, before: seq<Json>, after: Json, oldSet: Maybe,
                                           newSet: Maybe, plan: Plan)
    requires after.Arr? && ListPlan(raw, before, after.items) == Some(plan)
    ensures SomeElementRefused(raw, before, after, oldSet, newSet, plan)
            <==> AnyBlocked(raw, before, after, oldSet, newSet)
    decreases after, 0, 2
  {
    forall j: nat | j < |after.items|
      ensures Element(raw, before, after, oldSet, newSet, plan, j).Refused?
              <==> SomeBlocked(raw, before, after, oldSet, newSet, j)
    {
      RefusedAt(raw, before, after, oldSet, newSet, plan, j);
    }
  }

  lemma {:induction false} RefusedAt(raw: seq<Json>, before: seq<Json>, after: Json, oldSet: Maybe, newSet: Maybe,
                                     plan: Plan, j: nat)
    requires after.Arr? && j < |after.items| && ListPlan(raw, before, after.items) == Some(plan)
    ensures Element(raw, before, after, oldSet, newSet, plan, j).Refused?
            <==> SomeBlocked(raw, before, after, oldSet, newSet, j)
    decreases after, 0, 1
  {
    if plan.sources[j].Some? {
      var b := plan.sources[j].value;
      assert plan.sources[j] in plan.sources && plan.pairing[b] in plan.pairing;
      RefusedFrom(raw, before, after, oldSet, newSet, plan, j, b, plan.pairing[b]);
    }
    forall b: nat, r: nat | b < |before| && r < |raw|
      ensures ElementBlocked(raw, before, after, oldSet, newSet, j, b, r)
              ==> plan.sources[j] == Some(b) && plan.pairing[b] == r
    {
      PlanExact(raw, before, after.items, j, b, r);
    }
  }

  lemma {:induction false} RefusedFrom(raw: seq<Json>, before: seq<Json>, after: Json, oldSet: Maybe, newSet: Maybe,
                                       plan: Plan, j: nat, b: nat, r: nat)
    requires after.Arr? && j < |after.items| && ListPlan(raw, before, after.items) == Some(plan)
    requires plan.sources[j] == Some(b) && b < |before| && plan.pairing[b] == r < |raw|
    ensures Element(raw, before, after, oldSet, newSet, plan, j).Refused?
            <==> ElementBlocked(raw, before, after, oldSet, newSet, j, b, r)
    decreases after, 0, 0
  {
    PlanExact(raw, before, after.items, j, b, r);
    RefusedExact(Some(raw[r]), Some(before[b]), after.items[j], Item(oldSet, b), Item(newSet, j));
  }

  // ----- results -----

  /** The edit assigns nothing anywhere: it only removes keys of objects. */
  predicate Silent(before: Json, after: Json, oldSet: Maybe, newSet: Maybe) {
    || (before == after && oldSet == newSet)
    || (before.Obj? && after.Obj?
        && forall k <- after.fields ::
             k in before.fields && Silent(before.fields[k], after.fields[k], Get(oldSet, k), Get(newSet, k)))
  }

  /** A field that the raw value omits stays omitted exactly when the edit is silent: put-get
      cannot be complete there. */
  lemma {:induction false} OmittedField(before: Json, after: Json, oldSet: Maybe, newSet: Maybe)
    ensures OverlayValue(None, Some(before), after, oldSet, newSet).Kept?
    ensures OverlayValue(None, Some(before), after, oldSet, newSet) == Kept(None)
            <==> Silent(before, after, oldSet, newSet)
    decreases after
  {
    if before.Obj? && after.Obj? && !(before == after && oldSet == newSet) {
      forall k <- after.fields
        ensures var child := Child(None, before, after, oldSet, newSet, k);
                && child.Kept?
                && (child.value.None? <==>
                    k in before.fields
                    && Silent(before.fields[k], after.fields[k], Get(oldSet, k), Get(newSet, k)))
      {
        if k in before.fields {
          OmittedField(before.fields[k], after.fields[k], Get(oldSet, k), Get(newSet, k));
        }
      }
      var output := Output(None, before, after, oldSet, newSet);
      if k :| k in after.fields && Child(None, before, after, oldSet, newSet, k) != Kept(None) {
        assert k in output;
      }
    }
  }

  /** Emptying an omitted object is lost, however it was assigned. */
  lemma EmptiedLost(before: Json, oldSet: Maybe, newSet: Maybe)
    requires before.Obj?
    ensures OverlayValue(None, Some(before), Obj(map[]), oldSet, newSet) == Kept(None)
  {
    OmittedField(before, Obj(map[]), oldSet, newSet);
  }

  /** Where the edit shows in the result: what it leaves alone is the raw value, what was omitted
      and edited silently stays omitted, objects and arrays are edited inside, and anything else
      is replaced. */
  ghost predicate Shown(raw: Maybe, before: Maybe, after: Json, oldSet: Maybe, newSet: Maybe, result: Maybe)
    decreases after, 1
  {
    && (result.None? <==> raw.None? && before.Some? && Silent(before.value, after, oldSet, newSet))
    && if Untouched(before, after, oldSet, newSet) then result == raw
       else if before.Some? && before.value.Obj? && after.Obj? then
         FieldsShown(raw, before.value, after, oldSet, newSet, result)
       else if before.Some? && before.value.Arr? && after.Arr? && raw.Some? && raw.value.Arr? then
         ItemsShown(raw.value.items, before.value.items, after, oldSet, newSet, result)
       else if before == Some(after) && raw.Some? && !IsContainer(after) then result == raw
       else result == Some(after)
  }

  /** A field of the edit shows, a removed one is gone, and any other is the raw one. */
  ghost predicate FieldsShown(raw: Maybe, before: Json, after: Json, oldSet: Maybe, newSet: Maybe, result: Maybe)
    requires before.Obj? && after.Obj?
    decreases after, 0, 0
  {
    && (result.Some? ==> result.value.Obj?)
    && (forall k <- after.fields ::
          Shown(Get(raw, k), Get(Some(before), k), after.fields[k], Get(oldSet, k), Get(newSet, k), Get(result, k)))
    && (forall k | k !in after.fields :: Get(result, k) == if k in before.fields then None else Get(raw, k))
  }

  /** An element shows its edit over the raw one that it comes from, or is the new one. */
  ghost predicate ItemsShown(raw: seq<Json>, before: seq<Json>, after: Json, oldSet: Maybe, newSet: Maybe,
                             result: Maybe)
    requires after.Arr?
    decreases after, 0, 1
  {
    && result.Some? && result.value.Arr? && |result.value.items| == |after.items|
    && forall j: nat | j < |after.items| ::
         || ElementShown(raw, before, after, oldSet, newSet, j, result.value.items[j])
         || (result.value.items[j] == after.items[j] && Unmatched(raw, before, after.items, j))
  }

  ghost predicate Unmatched(raw: seq<Json>, before: seq<Json>, after: seq<Json>, j: nat)
    requires j < |after|
  {
    forall b: nat, r: nat | b < |before| && r < |raw| :: !Corresponds(raw, before, after, j, b, r)
  }

  ghost predicate ElementShown(raw: seq<Json>, before: seq<Json>, after: Json, oldSet: Maybe, newSet: Maybe, j: nat,
                               element: Json)
    requires after.Arr? && j < |after.items|
    decreases after, 0, 0
  {
    exists b: nat, r: nat | b < |before| && r < |raw| ::
      && Corresponds(raw, before, after.items, j, b, r)
      && Shown(Some(raw[r]), Some(before[b]), after.items[j], Item(oldSet, b), Item(newSet, j), Some(element))
  }

  /** Every result shows the edit. */
  lemma {:induction false} EditShown(raw: Maybe, before: Maybe, after: Json, oldSet: Maybe, newSet: Maybe)
    requires OverlayValue(raw, before, after, oldSet, newSet).Kept?
    ensures Shown(raw, before, after, oldSet, newSet, OverlayValue(raw, before, after, oldSet, newSet).value)
    decreases after, 1
  {
    if raw.None? && before.Some? { OmittedField(before.value, after, oldSet, newSet); }
    if Untouched(before, after, oldSet, newSet) {
    } else if before.Some? && before.value.Obj? && after.Obj? {
      EditShownFields(raw, before.value, after, oldSet, newSet);
    } else if before.Some? && before.value.Arr? && after.Arr? && raw.Some? && raw.value.Arr? {
      EditShownItems(raw.value.items, before.value.items, after, oldSet, newSet);
    }
  }

  lemma {:induction false} EditShownFields(raw: Maybe, before: Json, after: Json, oldSet: Maybe, newSet: Maybe)
    requires before.Obj? && after.Obj? && OverlayFields(raw, before, after, oldSet, newSet).Kept?
    ensures FieldsShown(raw, before, after, oldSet, newSet, OverlayFields(raw, before, after, oldSet, newSet).value)
    decreases after, 0
  {
    var result := OverlayFields(raw, before, after, oldSet, newSet).value;
    forall k <- after.fields
      ensures Shown(Get(raw, k), Get(Some(before), k), after.fields[k],
                    Get(oldSet, k), Get(newSet, k), Get(result, k))
    {
      var child := Child(raw, before, after, oldSet, newSet, k);
      assert child.Kept? && Get(result, k) == child.value;
      EditShown(Get(raw, k), Get(Some(before), k), after.fields[k], Get(oldSet, k), Get(newSet, k));
    }
  }

  lemma {:induction false} EditShownItems(raw: seq<Json>, before: seq<Json>, after: Json,
                                          oldSet: Maybe, newSet: Maybe)
    requires after.Arr? && OverlayItems(raw, before, after, oldSet, newSet).Kept?
    ensures ItemsShown(raw, before, after, oldSet, newSet, OverlayItems(raw, before, after, oldSet, newSet).value)
    decreases after, 0, 1
  {
    var plan := ListPlan(raw, before, after.items).value;
    var result := OverlayItems(raw, before, after, oldSet, newSet).value.value;
    forall j: nat | j < |after.items|
      ensures || ElementShown(raw, before, after, oldSet, newSet, j, result.items[j])
              || (result.items[j] == after.items[j] && Unmatched(raw, before, after.items, j))
    {
      assert Element(raw, before, after, oldSet, newSet, plan, j) == Kept(Some(result.items[j]));
      EditShownAt(raw, before, after, oldSet, newSet, plan, j, result.items[j]);
    }
  }

  lemma {:induction false} EditShownAt(raw: seq<Json>, before: seq<Json>, after: Json, oldSet: Maybe, newSet: Maybe,
                                       plan: Plan, j: nat, element: Json)
    requires after.Arr? && j < |after.items| && ListPlan(raw, before, after.items) == Some(plan)
    requires Element(raw, before, after, oldSet, newSet, plan, j) == Kept(Some(element))
    ensures || ElementShown(raw, before, after, oldSet, newSet, j, element)
            || (element == after.items[j] && Unmatched(raw, before, after.items, j))
    decreases after, 0, 0
  {
    if plan.sources[j].None? {
      forall b: nat, r: nat | b < |before| && r < |raw| ensures !Corresponds(raw, before, after.items, j, b, r) {
        PlanExact(raw, before, after.items, j, b, r);
      }
    } else {
      var b := plan.sources[j].value;
      assert plan.sources[j] in plan.sources && plan.pairing[b] in plan.pairing;
      PlanExact(raw, before, after.items, j, b, plan.pairing[b]);
      EditShown(Some(raw[plan.pairing[b]]), Some(before[b]), after.items[j], Item(oldSet, b), Item(newSet, j));
    }
  }
}
