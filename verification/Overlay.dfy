/** Pushing a typed edit back into raw JSON: `before` and `after` are what the model understands
    of the raw value and of its edit, and the raw value may hold more than the model knows. */
module Overlay {
  import opened Wrappers
  import opened Sequences
  import opened Json

  /** None stands for a value that is absent. */
  type Maybe = Option<Json>

  datatype Outcome = Refused | Kept(value: Maybe)

  predicate IsContainer(j: Json) { j.Obj? || j.Arr? }

  function Get(j: Maybe, key: string): Maybe { if j.Some? then Field(j.value, key) else None }

  function Item(j: Maybe, i: nat): Maybe {
    if j.Some? && j.value.Arr? && i < |j.value.items| then Some(j.value.items[i]) else None
  }

  /** Raw data that the typed value does not show, or arrays that cannot be paired. */
  predicate Unknown(raw: Json, typed: Json) {
    match (raw, typed)
    case (Obj(r), Obj(t)) => exists k <- r :: k !in t || Unknown(r[k], t[k])
    case (Arr(r), Arr(t)) => |r| != |t| || exists i :: 0 <= i < |r| && Unknown(r[i], t[i])
    case _ => false
  }

  /** The raw value agrees with the typed one wherever both speak. When `complete`, the raw value
      speaks everywhere the typed one does; without it, this is `_projection_matches`. */
  predicate Matches(complete: bool, raw: Json, typed: Json) {
    match (raw, typed)
    case (Obj(r), Obj(t)) =>
      (complete ==> t.Keys <= r.Keys) && forall k <- r.Keys * t.Keys :: Matches(complete, r[k], t[k])
    case (Arr(r), Arr(t)) => |r| == |t| && forall i :: 0 <= i < |r| ==> Matches(complete, r[i], t[i])
    case _ => raw == typed
  }

  // ----- arrays -----

  /** The name of an array element: a nonempty string under "name", or none. */
  function NameOf(value: Json): (name: string)
    ensures name != "" ==> Field(value, "name") == Some(Str(name))
    ensures Field(value, "name").Some? && Field(value, "name").value.Str? ==> name == Field(value, "name").value.s
  {
    if value.Obj? && "name" in value.fields && value.fields["name"].Str? then value.fields["name"].s else ""
  }

  function AllNames(values: seq<Json>): (names: seq<string>)
    ensures |names| == |values| && forall i :: 0 <= i < |values| ==> names[i] == NameOf(values[i])
  {
    seq(|values|, i requires 0 <= i < |values| => NameOf(values[i]))
  }

  /** The names of the elements, when all have one and no two share it. */
  function Names(values: seq<Json>): Option<seq<string>> {
    var names := AllNames(values);
    if "" !in names && NoRepeats(names) then Some(names) else None
  }

  function IndexOf(names: seq<string>, name: string): (i: nat)
    requires name in names
    ensures i < |names| && names[i] == name
  {
    if names[0] == name then 0 else 1 + IndexOf(names[1..], name)
  }

  /** How an array edit is read: which raw element each old element is, and which old element
      each new one comes from. */
  datatype Plan = Plan(pairing: seq<nat>, sources: seq<Option<nat>>)

  function Used(sources: seq<Option<nat>>): set<nat> { set s | s in sources && s.Some? :: s.value }

  function NamedPlan(raw: seq<Json>, before: seq<Json>, rawNames: seq<string>, oldNames: seq<string>,
                     newNames: seq<string>): Option<Plan>
    requires |raw| == |before| && rawNames == AllNames(raw) && oldNames == AllNames(before)
  {
    if !(forall n <- oldNames :: n in rawNames) || !(forall n <- rawNames :: n in oldNames) then None
    else
      var pairing := seq(|before|, i requires 0 <= i < |before| => IndexOf(rawNames, oldNames[i]));
      if (exists n <- newNames :: n !in oldNames)
         && (exists i :: 0 <= i < |before| && oldNames[i] !in newNames && Unknown(raw[pairing[i]], before[i]))
      then None
      else
        var sources := seq(|newNames|, i requires 0 <= i < |newNames| =>
                         if newNames[i] in oldNames then Some(IndexOf(oldNames, newNames[i])) else None);
        Some(Plan(pairing, sources))
  }

  /** The unused old elements equal to a new one, in order. */
  function Candidates(before: seq<Json>, value: Json, used: set<nat>, n: nat): (c: seq<nat>)
    requires n <= |before|
    ensures forall i <- c :: i < n && i !in used && before[i] == value
    ensures forall i :: 0 <= i < n && i !in used && before[i] == value ==> i in c
  {
    if n == 0 then []
    else
      var c := Candidates(before, value, used, n - 1);
      if n - 1 !in used && before[n - 1] == value then c + [n - 1] else c
  }

  /** Equal old elements whose raw forms differ cannot be told apart. */
  predicate RawDiffers(raw: seq<Json>, candidates: seq<nat>)
    requires candidates != [] && forall i <- candidates :: i < |raw|
  {
    assert candidates[0] in candidates;
    exists i <- candidates :: raw[i] != raw[candidates[0]]
  }

  /** Matching the first n new elements, each with the first unused equal old one. */
  function Sources(raw: seq<Json>, before: seq<Json>, after: seq<Json>, n: nat): (r: Option<seq<Option<nat>>>)
    requires |raw| == |before| && n <= |after|
    ensures r.Some? ==> |r.value| == n && forall s <- r.value :: s.Some? ==> s.value < |before|
  {
    if n == 0 then Some([])
    else
      var done := Sources(raw, before, after, n - 1);
      if done.None? then None
      else
        var c := Candidates(before, after[n - 1], Used(done.value), |before|);
        if c == [] then Some(done.value + [None])
        else
          assert c[0] in c;
          if RawDiffers(raw, c) then None else Some(done.value + [Some(c[0])])
  }

  predicate InPlace(sources: seq<Option<nat>>) {
    forall j :: 0 <= j < |sources| ==> sources[j].None? || sources[j].value == j
  }

  function Identity(n: nat): (s: seq<nat>)
    ensures |s| == n && forall i :: 0 <= i < n ==> s[i] == i
  {
    seq(n, i => i)
  }

  function UnnamedPlan(raw: seq<Json>, before: seq<Json>, after: seq<Json>): Option<Plan>
    requires |raw| == |before|
  {
    if exists i :: 0 <= i < |raw| && !Matches(false, raw[i], before[i]) then None
    else
      var found := Sources(raw, before, after, |after|);
      if found.None? then None
      else
        var sources := found.value;
        if |before| == |after| && InPlace(sources) then
          if Count(sources, None) > 1 && exists i ::
              0 <= i < |raw| && sources[i].None? && Unknown(raw[i], before[i]) then None
          else Some(Plan(Identity(|before|), seq(|after|, i requires 0 <= i < |after| => Some(i))))
        else if None in sources && exists i ::
            0 <= i < |raw| && i !in Used(sources) && Unknown(raw[i], before[i]) then None
        else Some(Plan(Identity(|before|), sources))
  }

  /** None when the edit of an array cannot be carried over safely. */
  function ListPlan(raw: seq<Json>, before: seq<Json>, after: seq<Json>): (r: Option<Plan>)
    ensures r.Some? ==> Fits(r.value, raw, before, after)
  {
    if |before| != |raw| then None
    else
      var oldNames, newNames, rawNames := Names(before), Names(after), Names(raw);
      if oldNames.Some? && newNames.Some? && rawNames.Some?
      then NamedPlan(raw, before, rawNames.value, oldNames.value, newNames.value)
      else UnnamedPlan(raw, before, after)
  }

  predicate Fits(plan: Plan, raw: seq<Json>, before: seq<Json>, after: seq<Json>) {
    && |plan.pairing| == |before| == |raw| && |plan.sources| == |after|
    && (forall j <- plan.pairing :: j < |raw|)
    && (forall s <- plan.sources :: s.Some? ==> s.value < |before|)
  }

  // ----- the overlay -----

  function OverlayValue(raw: Maybe, before: Maybe, after: Json, oldSet: Maybe, newSet: Maybe): (r: Outcome)
    ensures raw.Some? && r.Kept? ==> r.value.Some?
    decreases after, 1
  {
    if before == Some(after) && (raw.Some? || oldSet == newSet) && (!IsContainer(after) || oldSet == newSet)
      then Kept(raw)
    else if before.Some? && before.value.Obj? && after.Obj? then OverlayFields(raw, before.value, after, oldSet, newSet)
    else if before.Some? && before.value.Arr? && after.Arr? && raw.Some? && raw.value.Arr? then
      OverlayItems(raw.value.items, before.value.items, after, oldSet, newSet)
    else Kept(Some(after))
  }

  function Child(raw: Maybe, before: Json, after: Json, oldSet: Maybe, newSet: Maybe, key: string): (r: Outcome)
    requires after.Obj? && key in after.fields
    ensures Get(raw, key).Some? && r.Kept? ==> r.value.Some?
    decreases after, 0, 0
  {
    OverlayValue(Get(raw, key), Get(Some(before), key), after.fields[key], Get(oldSet, key), Get(newSet, key))
  }

  predicate SomeRefused(raw: Maybe, before: Json, after: Json, oldSet: Maybe, newSet: Maybe)
    requires after.Obj?
    decreases after, 0, 1
  {
    exists k <- after.fields :: Child(raw, before, after, oldSet, newSet, k).Refused?
  }

  function Output(raw: Maybe, before: Json, after: Json, oldSet: Maybe, newSet: Maybe): (output: map<string, Json>)
    requires before.Obj? && after.Obj? && !SomeRefused(raw, before, after, oldSet, newSet)
    ensures forall k <- after.fields :: var child := Child(raw, before, after, oldSet, newSet, k);
              child == Kept(if k in output then Some(output[k]) else None)
    decreases after, 0, 2
  {
    var base := if raw.Some? && raw.value.Obj? then raw.value.fields else map[];
    map k | k in base.Keys + after.fields.Keys
      && (if k in after.fields then Child(raw, before, after, oldSet, newSet, k).value.Some? else k !in before.fields)
      :: if k in after.fields then Child(raw, before, after, oldSet, newSet, k).value.value else base[k]
  }

  function OverlayFields(raw: Maybe, before: Json, after: Json, oldSet: Maybe, newSet: Maybe): (r: Outcome)
    requires before.Obj? && after.Obj?
    ensures raw.Some? && r.Kept? ==> r.value.Some?
    decreases after, 0, 3
  {
    if SomeRefused(raw, before, after, oldSet, newSet) then Refused
    else
      var output := Output(raw, before, after, oldSet, newSet);
      Kept(if output != map[] || raw.Some? then Some(Obj(output)) else None)
  }

  function Element(raw: seq<Json>, before: seq<Json>, after: Json, oldSet: Maybe, newSet: Maybe, plan: Plan,
                   i: nat): (r: Outcome)
    requires after.Arr? && i < |after.items| && Fits(plan, raw, before, after.items)
    ensures r.Kept? ==> r.value.Some?
    decreases after, 0, 0
  {
    match plan.sources[i]
    case None => Kept(Some(after.items[i]))
    case Some(b) =>
      assert plan.sources[i] in plan.sources && plan.pairing[b] in plan.pairing;
      OverlayValue(Some(raw[plan.pairing[b]]), Some(before[b]), after.items[i], Item(oldSet, b), Item(newSet, i))
  }

  predicate SomeElementRefused(raw: seq<Json>, before: seq<Json>, after: Json, oldSet: Maybe, newSet: Maybe, plan: Plan)
    requires after.Arr? && Fits(plan, raw, before, after.items)
    decreases after, 0, 1
  {
    exists i :: 0 <= i < |after.items| && Element(raw, before, after, oldSet, newSet, plan, i).Refused?
  }

  function Elements(raw: seq<Json>, before: seq<Json>, after: Json, oldSet: Maybe, newSet: Maybe,
                    plan: Plan): (s: seq<Json>)
    requires after.Arr? && Fits(plan, raw, before, after.items)
             && !SomeElementRefused(raw, before, after, oldSet, newSet, plan)
    ensures |s| == |after.items|
    ensures forall i :: 0 <= i < |s| ==> Element(raw, before, after, oldSet, newSet, plan, i) == Kept(Some(s[i]))
    decreases after, 0, 2
  {
    seq(|after.items|,
        i requires 0 <= i < |after.items| => Element(raw, before, after, oldSet, newSet, plan, i).value.value)
  }

  function OverlayItems(raw: seq<Json>, before: seq<Json>, after: Json, oldSet: Maybe, newSet: Maybe): (r: Outcome)
    requires after.Arr?
    ensures r.Kept? ==> r.value.Some?
    decreases after, 0, 3
  {
    match ListPlan(raw, before, after.items)
    case None => Refused
    case Some(plan) =>
      if SomeElementRefused(raw, before, after, oldSet, newSet, plan) then Refused
      else Kept(Some(Arr(Elements(raw, before, after, oldSet, newSet, plan))))
  }
}
