/** The overlay refuses only to protect data the model does not know: where the raw value holds
    nothing more than the typed one, every edit is carried out, and the result is the edit. */
module OverlayKnown {
  import opened Wrappers
  import opened Json
  import opened Overlay
  import opened OverlayProofs

  lemma {:induction false} KnownSelf(j: Json)
    ensures !Unknown(j, j)
  {
    match j
    case Obj(f) => forall k <- f ensures !Unknown(f[k], f[k]) { KnownSelf(f[k]); }
    case Arr(x) => forall i | 0 <= i < |x| ensures !Unknown(x[i], x[i]) { KnownSelf(x[i]); }
    case _ =>
  }

  /** A complete match without unknown data is equality. */
  lemma {:induction false} NothingUnknown(raw: Json, typed: Json)
    ensures raw == typed <==> Matches(true, raw, typed) && !Unknown(raw, typed)
  {
    if raw == typed {
      MatchesSelf(true, raw);
      KnownSelf(raw);
    }
    match (raw, typed)
    case (Obj(r), Obj(t)) =>
      forall k <- r.Keys * t.Keys { NothingUnknown(r[k], t[k]); }
      if Matches(true, raw, typed) && !Unknown(raw, typed) {
        assert forall k <- r :: k in t && r[k] == t[k];
        assert r == t;
      }
    case (Arr(r), Arr(t)) =>
      if |r| == |t| { forall i | 0 <= i < |r| { NothingUnknown(r[i], t[i]); } }
      if Matches(true, raw, typed) && !Unknown(raw, typed) { assert r == t; }
    case _ =>
  }

  lemma {:induction false} SourcesFound(before: seq<Json>, after: seq<Json>, n: nat)
    requires n <= |after|
    ensures Sources(before, before, after, n).Some?
  {
    if n > 0 { SourcesFound(before, after, n - 1); }
  }

  lemma NamedPlanFound(before: seq<Json>, after: seq<Json>)
    requires Names(before).Some? && Names(after).Some?
    ensures NamedPlan(before, before, AllNames(before), AllNames(before), AllNames(after)).Some?
  {
    var names := AllNames(before);
    forall i | 0 <= i < |before| ensures IndexOf(names, names[i]) == i && !Unknown(before[i], before[i]) {
      IndexOfUnique(names, i);
      KnownSelf(before[i]);
    }
  }

  lemma UnnamedPlanFound(before: seq<Json>, after: seq<Json>)
    ensures UnnamedPlan(before, before, after).Some?
  {
    SourcesFound(before, after, |after|);
    forall i | 0 <= i < |before| ensures Matches(false, before[i], before[i]) && !Unknown(before[i], before[i]) {
      MatchesSelf(false, before[i]);
      KnownSelf(before[i]);
    }
  }

  lemma PlanFound(before: seq<Json>, after: seq<Json>)
    ensures ListPlan(before, before, after).Some?
  {
    if Names(before).Some? && Names(after).Some? {
      NamedPlanFound(before, after);
    } else {
      UnnamedPlanFound(before, after);
    }
  }

  /** With nothing unknown in the raw value the overlay never refuses, and returns the edit. */
  lemma {:induction false} KnownEdit(before: Json, after: Json, oldSet: Maybe, newSet: Maybe)
    ensures OverlayValue(Some(before), Some(before), after, oldSet, newSet) == Kept(Some(after))
    decreases after, 1
  {
    if before.Obj? && after.Obj? { KnownFields(before, after, oldSet, newSet); }
    if before.Arr? && after.Arr? { KnownItems(before.items, after, oldSet, newSet); }
  }

  lemma {:induction false} KnownFields(before: Json, after: Json, oldSet: Maybe, newSet: Maybe)
    requires before.Obj? && after.Obj?
    ensures OverlayFields(Some(before), before, after, oldSet, newSet) == Kept(Some(after))
    decreases after, 0
  {
    forall k <- after.fields
      ensures Child(Some(before), before, after, oldSet, newSet, k) == Kept(Some(after.fields[k]))
    {
      if k in before.fields { KnownEdit(before.fields[k], after.fields[k], Get(oldSet, k), Get(newSet, k)); }
    }
    var output := Output(Some(before), before, after, oldSet, newSet);
    assert forall k <- after.fields ::
             Kept(Some(after.fields[k])) == Kept(if k in output then Some(output[k]) else None);
    assert output == after.fields;
  }

  lemma {:induction false} KnownItems(before: seq<Json>, after: Json, oldSet: Maybe, newSet: Maybe)
    requires after.Arr?
    ensures OverlayItems(before, before, after, oldSet, newSet) == Kept(Some(after))
    decreases after, 0
  {
    PlanFound(before, after.items);
    var plan := ListPlan(before, before, after.items).value;
    forall i | 0 <= i < |after.items|
      ensures Element(before, before, after, oldSet, newSet, plan, i) == Kept(Some(after.items[i]))
    {
      if plan.sources[i].Some? {
        var b := plan.sources[i].value;
        assert plan.sources[i] in plan.sources;
        PairedWithItself(before, after.items, b);
        KnownEdit(before[b], after.items[i], Item(oldSet, b), Item(newSet, i));
      }
    }
    GatheredAll(before, before, after, oldSet, newSet, plan, after.items);
  }

  lemma PairedWithItself(before: seq<Json>, after: seq<Json>, b: nat)
    requires ListPlan(before, before, after).Some? && b < |before|
    ensures ListPlan(before, before, after).value.pairing[b] == b
  {
    forall j | 0 <= j < |before| ensures Matches(true, before[j], before[j]) { MatchesSelf(true, before[j]); }
    PairingInPlace(true, before, before, after, b);
  }

  /** A refusal means that the raw value disagrees with the typed one, or knows more. */
  lemma RefusalProtects(raw: Json, before: Json, after: Json, oldSet: Maybe, newSet: Maybe)
    requires OverlayValue(Some(raw), Some(before), after, oldSet, newSet).Refused?
    ensures !Matches(true, raw, before) || Unknown(raw, before)
  {
    NothingUnknown(raw, before);
    if raw == before { KnownEdit(before, after, oldSet, newSet); }
  }
}
