/** Child convergence: the fields a controller supplies are merged into the stored child, and the
    difference is patched. */
module Children {
  import opened Wrappers
  import opened Json
  import opened JsonPatch
  import opened JsonPatchProofs
  import opened Persist

  /** Every supplied field takes effect: null removes, objects merge, anything else replaces. */
  function Merged(current: Json, desired: Json): (r: Json)
    requires current.Obj? && desired.Obj?
    ensures r.Obj?
    decreases desired
  {
    Obj(map k | k in current.fields.Keys + desired.fields.Keys && !(k in desired.fields && desired.fields[k].Null?) ::
          if k !in desired.fields then current.fields[k]
          else if desired.fields[k].Obj? && k in current.fields && current.fields[k].Obj?
            then Merged(current.fields[k], desired.fields[k])
          else desired.fields[k])
  }

  /** Validating and dumping without nulls. */
  function Strip(v: Json): (r: Json)
    ensures (v.Obj? <==> r.Obj?) && (v.Null? <==> r.Null?)
    decreases v
  {
    match v
    case Obj(fields) => Obj(map k | k in fields && !fields[k].Null? :: Strip(fields[k]))
    case Arr(items) => Arr(seq(|items|, i requires 0 <= i < |items| => Strip(items[i])))
    case _ => v
  }

  function Updated(current: Json, desired: Json): (r: Json)
    requires current.Obj? && desired.Obj?
    ensures r.Obj?
  {
    Strip(Merged(current, desired))
  }

  lemma {:induction false} StripAgain(v: Json)
    ensures Strip(Strip(v)) == Strip(v)
    decreases v
  {
    match v
    case Obj(fields) =>
      forall k | k in fields && !fields[k].Null?
        ensures Strip(Strip(fields[k])) == Strip(fields[k])
      {
        StripAgain(fields[k]);
      }
      assert Strip(Strip(v)).fields == Strip(v).fields;
    case Arr(items) =>
      forall i | 0 <= i < |items| ensures Strip(Strip(items[i])) == Strip(items[i]) { StripAgain(items[i]); }
      assert Strip(Strip(v)).items == Strip(v).items;
    case _ =>
  }

  /** One field of the updated child. */
  function FieldOf(current: Json, desired: Json, k: string): Option<Json>
    requires current.Obj? && desired.Obj?
  {
    if k !in desired.fields
      then (if k in current.fields && !current.fields[k].Null? then Some(Strip(current.fields[k])) else None)
    else if desired.fields[k].Null? then None
    else if desired.fields[k].Obj? && k in current.fields && current.fields[k].Obj?
      then Some(Updated(current.fields[k], desired.fields[k]))
    else Some(Strip(desired.fields[k]))
  }

  lemma UpdatedField(current: Json, desired: Json, k: string)
    requires current.Obj? && desired.Obj?
    ensures Field(Updated(current, desired), k) == FieldOf(current, desired, k)
  {
    var merged := Merged(current, desired);
    assert k in merged.fields
           <==> k in current.fields.Keys + desired.fields.Keys && !(k in desired.fields && desired.fields[k].Null?);
  }

  lemma SameFields(a: Json, b: Json)
    requires a.Obj? && b.Obj? && forall k :: Field(a, k) == Field(b, k)
    ensures a == b
  {
    assert forall k :: k in a.fields <==> Field(a, k).Some?;
    assert forall k :: k in b.fields <==> Field(b, k).Some?;
    assert a.fields == b.fields;
  }

  /** A supplied object merged into itself. */
  lemma {:induction false} UpdatedSelf(v: Json)
    requires v.Obj?
    ensures Updated(Strip(v), v) == Strip(v)
    decreases v
  {
    forall k ensures Field(Updated(Strip(v), v), k) == Field(Strip(v), k) {
      UpdatedField(Strip(v), v, k);
      if k in v.fields && v.fields[k].Obj? { UpdatedSelf(v.fields[k]); }
    }
    SameFields(Updated(Strip(v), v), Strip(v));
  }

  /** Convergence: updating again changes nothing. */
  lemma {:induction false} UpdatedAgain(current: Json, desired: Json)
    requires current.Obj? && desired.Obj?
    ensures Updated(Updated(current, desired), desired) == Updated(current, desired)
    decreases desired
  {
    var once := Updated(current, desired);
    forall k ensures Field(Updated(once, desired), k) == Field(once, k) {
      UpdatedField(current, desired, k);
      UpdatedField(once, desired, k);
      if k in desired.fields {
        if desired.fields[k].Obj? {
          if k in current.fields && current.fields[k].Obj? { UpdatedAgain(current.fields[k], desired.fields[k]); }
          else { UpdatedSelf(desired.fields[k]); }
        }
      } else if k in current.fields {
        StripAgain(current.fields[k]);
      }
    }
    SameFields(Updated(once, desired), once);
  }

  // ----- what is left alone, and what takes effect -----

  /** The supplied fields end above the path, inside objects that both sides have. */
  predicate Omits(current: Json, desired: Json, path: seq<string>)
    requires current.Obj? && desired.Obj?
    decreases |path|
  {
    path != [] && (path[0] !in desired.fields
                   || (desired.fields[path[0]].Obj? && path[0] in current.fields && current.fields[path[0]].Obj?
                       && Omits(current.fields[path[0]], desired.fields[path[0]], path[1..])))
  }

  /** Every field that the desired child omits keeps its value. */
  lemma {:induction false} OmittedKept(current: Json, desired: Json, path: seq<string>)
    requires current.Obj? && desired.Obj? && !HasNull(current) && Omits(current, desired, path)
    ensures At(Updated(current, desired), path) == At(current, path)
    decreases |path|
  {
    var k := path[0];
    StripExact(current);
    UpdatedField(current, desired, k);
    if k in desired.fields { OmittedKept(current.fields[k], desired.fields[k], path[1..]); }
  }

  /** Every value that the desired child supplies is there afterwards, and every null is gone. An
      object is merged where the child has one already, and put in place where it has none. */
  lemma {:induction false} SuppliedHolds(current: Json, desired: Json, path: seq<string>)
    requires current.Obj? && desired.Obj? && path != [] && At(desired, path).Some?
    ensures var supplied, was, left := At(desired, path).value, At(current, path), At(Updated(current, desired), path);
            if supplied.Null? then left == None
            else if supplied.Obj? && was.Some? && was.value.Obj? then left.Some? && left.value.Obj?
            else left == Some(Strip(supplied))
    decreases |path|
  {
    var k := path[0];
    UpdatedField(current, desired, k);
    if |path| > 1 {
      if k in current.fields && current.fields[k].Obj? {
        SuppliedHolds(current.fields[k], desired.fields[k], path[1..]);
      } else {
        UpdatedSelf(desired.fields[k]);
        SuppliedHolds(Strip(desired.fields[k]), desired.fields[k], path[1..]);
        SelfHolds(desired.fields[k], path[1..]);
      }
    }
  }

  /** Under a path that holds no null, dropping nulls only drops them below. */
  lemma {:induction false} SelfHolds(v: Json, path: seq<string>)
    requires At(v, path).Some?
    ensures At(Strip(v), path) == if path != [] && At(v, path).value.Null? then None else Some(Strip(At(v, path).value))
    decreases |path|
  {
    if path != [] { SelfHolds(v.fields[path[0]], path[1..]); }
  }

  /** Some object inside the value holds null. */
  predicate HasNull(v: Json) {
    match v
    case Obj(fields) => exists k <- fields :: fields[k].Null? || HasNull(fields[k])
    case Arr(items) => exists i :: 0 <= i < |items| && HasNull(items[i])
    case _ => false
  }

  /** Dropping nulls leaves none and changes nothing else. */
  lemma {:induction false} StripExact(v: Json)
    ensures !HasNull(Strip(v)) && (Strip(v) == v <==> !HasNull(v))
    decreases v
  {
    match v
    case Obj(fields) =>
      forall k <- fields
        ensures !HasNull(Strip(fields[k])) && (Strip(fields[k]) == fields[k] <==> !HasNull(fields[k]))
      {
        StripExact(fields[k]);
      }
      StripFields(fields);
    case Arr(items) =>
      forall i | 0 <= i < |items|
        ensures !HasNull(Strip(items[i])) && (Strip(items[i]) == items[i] <==> !HasNull(items[i]))
      {
        StripExact(items[i]);
      }
      assert Strip(v) == v <==> forall i :: 0 <= i < |items| ==> Strip(items[i]) == items[i] by {
        assert forall i :: 0 <= i < |items| ==> Strip(v).items[i] == Strip(items[i]);
        if forall i :: 0 <= i < |items| ==> Strip(items[i]) == items[i] { assert Strip(v).items == items; }
      }
    case _ =>
  }

  lemma StripFields(fields: map<string, Json>)
    ensures Strip(Obj(fields)) == Obj(fields)
            <==> forall k <- fields :: !fields[k].Null? && Strip(fields[k]) == fields[k]
  {
    var r := Strip(Obj(fields)).fields;
    if forall k <- fields :: !fields[k].Null? && Strip(fields[k]) == fields[k] { assert r == fields; }
    if r == fields { assert forall k <- fields :: k in r && r[k] == fields[k]; }
  }

  // ----- the merge as it edits the current fields -----

  method Merge(current: map<string, Json>, desired: Json) returns (merged: map<string, Json>)
    requires desired.Obj?
    ensures Obj(merged) == Merged(Obj(current), desired)
    decreases desired
  {
    merged := current;
    var left := desired.fields.Keys;
    ghost var goal := Merged(Obj(current), desired).fields;
    while left != {}
      invariant left <= desired.fields.Keys
      invariant forall k :: (k in desired.fields && k !in left) || k !in desired.fields ==>
                  Field(Obj(merged), k) == Field(Obj(goal), k)
      invariant forall k <- left :: Field(Obj(merged), k) == Field(Obj(current), k)
      decreases left
    {
      var key :| key in left;
      var value := desired.fields[key];
      if value.Null? {
        merged := merged - {key};
      } else if value.Obj? && key in merged && merged[key].Obj? {
        var inner := Merge(merged[key].fields, value);
        merged := merged[key := Obj(inner)];
      } else {
        merged := merged[key := value];
      }
      left := left - {key};
    }
    SameFields(Obj(merged), Obj(goal));
  }

  // ----- the patch, and the pass after it -----

  lemma SetField(o: Json, d: Json, k: string, x: Json)
    requires o.Obj? && d.Obj? && Updated(o, d) == o && k !in d.fields && x.Str?
    ensures Updated(Obj(o.fields[k := x]), d) == Obj(o.fields[k := x])
  {
    var set' := Obj(o.fields[k := x]);
    forall j ensures Field(Updated(set', d), j) == Field(set', j) {
      UpdatedField(set', d, j);
      UpdatedField(o, d, j);
    }
    SameFields(Updated(set', d), set');
  }

  lemma StripSet(o: Json, k: string, x: Json)
    requires o.Obj? && Strip(o) == o && x.Str?
    ensures Strip(Obj(o.fields[k := x])) == Obj(o.fields[k := x])
  {
    var set' := Obj(o.fields[k := x]);
    forall j ensures Field(Strip(set'), j) == Field(set', j) {
    }
    SameFields(Strip(set'), set');
  }

  /** The desired child says nothing about what the server decides. */
  predicate Supplied(desired: Json) {
    && desired.Obj? && "status" !in desired.fields
    && ("metadata" in desired.fields ==>
         desired.fields["metadata"].Obj? && "resourceVersion" !in desired.fields["metadata"].fields)
  }

  /** The version that the server stamps does not disturb convergence. */
  lemma StampedFixed(u: Json, desired: Json, n: nat)
    requires Supplied(desired) && Storable(u) && Updated(u, desired) == u
    ensures Updated(Stamp(u, n), desired) == Stamp(u, n)
  {
    var p, version := "metadata", Str(VersionText(n));
    var meta := u.fields[p];
    UpdatedField(u, desired, p);
    if p in desired.fields { SetField(meta, desired.fields[p], "resourceVersion", version); }
    else { StripSet(meta, "resourceVersion", version); }
    SameFields(Updated(Stamp(u, n), desired), Stamp(u, n));
  }

  /** The merge keeps metadata an object and the status as it is. */
  lemma UpdatedStorable(current: Json, desired: Json)
    requires Supplied(desired) && Storable(current) && Strip(current) == current
    ensures Storable(Updated(current, desired))
            && Field(Updated(current, desired), "status") == Field(current, "status")
    ensures WithStatusOf(Updated(current, desired), current) == Updated(current, desired)
  {
    UpdatedField(current, desired, "metadata");
    UpdatedField(current, desired, "status");
  }

  /** One pass over a fetched child: refused, empty, or one guarded patch that takes effect exactly
      when nobody else wrote in between. After it succeeds the next pass has nothing to do. */
  method Ensure(api: Api, current: Json, desired: Json, others: seq<Json>) returns (result: Result<Json, Refusal>)
    requires History(api.history) && current in api.history && !HasNull(current) && Supplied(desired)
    modifies api
    ensures current.Obj?
    ensures result.Ok? ==> result.value.Obj? && Updated(result.value, desired) == result.value
    ensures var updated := Updated(current, desired);
            if CheckIdentity(current, updated).Some?
              then result == Err(CheckIdentity(current, updated).value) && api.history == old(api.history)
            else if updated == current then result == Ok(current) && api.history == old(api.history)
            else && (result.Ok? <==> StillCurrent(old(api.history), current, others))
                 && match result
                    case Ok(value) =>
                      Storable(updated) && value == Stamp(updated, |old(api.history)|)
                      && api.history == old(api.history) + [value]
                    case Err(error) => error == Conflict && api.history == StoreAll(old(api.history), others)
  {
    StripExact(current);
    var merged := Merge(current.fields, desired);
    var updated := Strip(Obj(merged));
    UpdatedStorable(current, desired);
    UpdatedAgain(current, desired);
    var operations := GuardedDiff(current, updated);
    if operations.Err? { return Err(operations.error); }
    if operations.value == [] { return Ok(current); }
    result := Write(api, current, updated, operations.value[..2], operations.value[2..], others);
    if result.Ok? { StampedFixed(updated, desired, |old(api.history)|); }
  }

  method Write(api: Api, current: Json, updated: Json, guards: seq<Op>, changes: seq<Op>, others: seq<Json>)
    returns (result: Result<Json, Refusal>)
    requires History(api.history) && current in api.history && current.Obj? && Storable(updated)
    requires GuardingDoc(guards, current) && changes == Diff(current, updated)
             && WithStatusOf(updated, current) == updated
    modifies api
    ensures result.Ok? <==> StillCurrent(old(api.history), current, others)
    ensures match result
            case Ok(value) =>
              value == Stamp(updated, |old(api.history)|) && api.history == old(api.history) + [value]
            case Err(error) => error == Conflict && api.history == StoreAll(old(api.history), others)
  {
    RoundTrip(current, updated);
    var written := Send(api, guards, changes, if api.statusSubresource then Main else Whole, current, others, updated);
    result := if written.Some? then Ok(written.value) else Err(Conflict);
  }
}
