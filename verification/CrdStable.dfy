/** Compiling a compiled schema again: it is a fixed point exactly when no node of it has both
    properties and additional properties, and is refused otherwise. */
module CrdStable {
  import opened Wrappers
  import opened Crd
  import opened CrdConvert
  import opened CrdProofs

  predicate Unmixed(ctx: Context, s: Value)
    decreases s, 1
  {
    s.Dict? ==>
      && !Mixed(ctx, s.fields)
      && (Properties in s.fields ==> UnmixedFields(ctx, s.fields[Properties]))
      && (Items in s.fields ==> Unmixed(ctx, s.fields[Items]))
      && (Lookup(s.fields, AdditionalProperties).Dict? ==> Unmixed(ctx, s.fields[AdditionalProperties]))
  }

  predicate UnmixedFields(ctx: Context, props: Value)
    decreases props, 0
  {
    props.Dict? ==> forall k <- props.fields :: Unmixed(ctx, props.fields[k])
  }

  /** Compiling returns the schema itself if it is unmixed, and refuses it otherwise. */
  predicate Fixed(ctx: Context, s: Value, refs: set<string>)
    requires s.Dict?
  {
    Convert(ctx, s, refs) == if Unmixed(ctx, s) then Some(s.fields) else None
  }

  lemma MarkerIsScalars()
    ensures UnionOf(INT_OR_STRING) == Scalars(false)
  {
    TypedDiffer();
    var v := INT_OR_STRING.items;
    assert v[1..] == [Typed(StringType)] && NonNull(v[1..]) == [Typed(StringType)] + NonNull(v[1..][1..]);
    assert NonNull(v) == v;
  }

  lemma FirstExampleFixed(ctx: Context, node: Fields)
    requires Acceptable(node)
    ensures FirstExample(ctx, node - {UniqueItems}) == Some(node)
  {
    assert UniqueItems !in node && Examples !in node;
    assert node - {UniqueItems} == node && node - {Examples} == node;
  }

  lemma PreparedFixed(ctx: Context, node: Fields)
    requires Ready(ctx, node)
    ensures Prepared(ctx, node) == Some(node)
  {
    FirstExampleFixed(ctx, node);
    assert Const !in node && UniqueItems !in node;
  }

  lemma FilledFixed(ctx: Context, body: Fields)
    requires Body(ctx, body) && Untyped(ctx, body)
    ensures body[PreserveUnknown := YES][Nullable := YES] == body
  {
    assert PreserveUnknown in body && Nullable in body;
  }

  lemma CompletedFixed(ctx: Context, node: Fields)
    requires Shape(ctx, node)
    ensures Completed(ctx, node - {AnyOf}) == Some(node)
  {
    var body := node - {AnyOf};
    if Untyped(ctx, body) { FilledFixed(ctx, body); }
    assert AnyOf in node ==> body[AnyOf := INT_OR_STRING] == node;
    assert AnyOf !in node ==> body == node;
  }

  lemma BodyIsMarked(ctx: Context, node: Fields)
    requires Shape(ctx, node)
    ensures AnyOf in node ==> Marked(node, false) == node - {AnyOf}
    ensures AnyOf !in node ==> node - {AnyOf} == node
  {
    if AnyOf in node { assert Lookup(node - {AnyOf}, IntOrString) == YES; }
  }

  /** An embedded resource has its open metadata. */
  predicate WithMetadata(props: Value, embedded: bool) {
    props.Dict? && (embedded ==> Metadata in props.fields && props.fields[Metadata] == Typed(ObjectType))
  }

  lemma FieldStable(ctx: Context, out: Value, refs: set<string>, embedded: bool, k: Word)
    requires out.Dict? && Properties in out.fields && WithMetadata(out.fields[Properties], embedded)
    requires k in out.fields[Properties].fields && out.fields[Properties].fields[k].Dict?
    requires Fixed(ctx, out.fields[Properties].fields[k], refs)
    ensures var v := out.fields[Properties].fields[k];
            ConvertField(ctx, out, refs, embedded, k) == if Unmixed(ctx, v) then Some(v) else None
  {
  }

  lemma FieldsStable(ctx: Context, out: Value, refs: set<string>, embedded: bool)
    requires out.Dict? && Properties in out.fields && WithMetadata(out.fields[Properties], embedded)
    requires var props := out.fields[Properties].fields;
             forall k <- props :: props[k].Dict? && Fixed(ctx, props[k], refs)
    ensures ConvertFields(ctx, out, refs, embedded) ==
            if UnmixedFields(ctx, out.fields[Properties]) then Some(out.fields[Properties].fields) else None
  {
    var props := out.fields[Properties].fields;
    assert FieldNames(out, embedded) == props.Keys;
    forall k <- props
      ensures ConvertField(ctx, out, refs, embedded, k) == if Unmixed(ctx, props[k]) then Some(props[k]) else None
    {
      FieldStable(ctx, out, refs, embedded, k);
    }
    if UnmixedFields(ctx, out.fields[Properties]) {
      AllConverted(ctx, out, refs, embedded, props);
    } else {
      var k :| k in props && !Unmixed(ctx, props[k]);
      SomeRefused(ctx, out, refs, embedded, k);
    }
  }

  function Picked(node: Fields, key: Word, wanted: bool): Fields {
    if wanted && key in node then map[key := node[key]] else map[]
  }

  function IfUnmixed(unmixed: bool, fields: Fields): Option<Fields> { if unmixed then Some(fields) else None }

  /** The children that `ConvertChildren` replaces, as they are. */
  function ChildrenNow(node: Fields): Fields {
    Picked(node, AdditionalProperties, Lookup(node, AdditionalProperties).Dict?) + Picked(node, Properties, true)
    + Picked(node, Items, true)
  }

  lemma {:induction false} ExtraStable(ctx: Context, out: Value, body: Fields, refs: set<string>)
    requires Normal(ctx, out) && SameChildren(body, out.fields)
    ensures ConvertExtra(ctx, out, body, refs)
            == IfUnmixed(!Mixed(ctx, body)
                         && (Lookup(body, AdditionalProperties).Dict? ==> Unmixed(ctx, body[AdditionalProperties])),
                         Picked(body, AdditionalProperties, Lookup(body, AdditionalProperties).Dict?))
    decreases out, 0
  {
    if Lookup(body, AdditionalProperties).Dict? { Stable(ctx, body[AdditionalProperties], refs); }
  }

  lemma {:induction false} PropsStable(ctx: Context, out: Value, body: Fields, refs: set<string>)
    requires Normal(ctx, out) && SameChildren(body, out.fields) && SameAt(body, out.fields, EmbeddedResource)
    ensures ConvertProps(ctx, out, body, refs)
            == IfUnmixed(Properties in body ==> UnmixedFields(ctx, body[Properties]), Picked(body, Properties, true))
    decreases out, 0
  {
    if Properties in body {
      var props := body[Properties].fields;
      forall k <- props ensures props[k].Dict? && Fixed(ctx, props[k], refs) { Stable(ctx, props[k], refs); }
      FieldsStable(ctx, out, refs, On(ctx, out.fields, EmbeddedResource));
    }
  }

  lemma {:induction false} ItemsStable(ctx: Context, out: Value, body: Fields, refs: set<string>)
    requires Normal(ctx, out) && SameChildren(body, out.fields)
    ensures ConvertItems(ctx, out, body, refs)
            == IfUnmixed(Items in body ==> Unmixed(ctx, body[Items]), Picked(body, Items, true))
    decreases out, 0
  {
    if Items in body { Stable(ctx, body[Items], refs); }
  }

  lemma {:induction false} ChildrenStable(ctx: Context, out: Value, body: Fields, refs: set<string>)
    requires Normal(ctx, out) && SameChildren(body, out.fields) && SameAt(body, out.fields, EmbeddedResource)
    ensures ConvertChildren(ctx, out, body, refs) == IfUnmixed(Unmixed(ctx, out), ChildrenNow(body))
    decreases out, 1
  {
    ExtraStable(ctx, out, body, refs);
    PropsStable(ctx, out, body, refs);
    ItemsStable(ctx, out, body, refs);
  }

  lemma ChildrenBack(node: Fields)
    ensures node + ChildrenNow(node) == node
  {
  }

  lemma PlainStable(ctx: Context, out: Value, body: Fields, refs: set<string>)
    requires out.Dict? && Shape(ctx, out.fields) && body == out.fields - {AnyOf} && SameChildren(out.fields, body)
    requires ConvertChildren(ctx, out, body, refs) == IfUnmixed(Unmixed(ctx, out), ChildrenNow(body))
    ensures Plain(ctx, out, body, refs) == IfUnmixed(Unmixed(ctx, out), out.fields)
  {
    PreparedFixed(ctx, body);
    ChildrenBack(body);
    CompletedFixed(ctx, out.fields);
  }

  lemma ConvertIsPlain(ctx: Context, out: Value, body: Fields, refs: set<string>)
    requires out.Dict? && Shape(ctx, out.fields) && body == out.fields - {AnyOf} && SameChildren(out.fields, body)
    ensures Convert(ctx, out, refs) == Plain(ctx, out, body, refs)
  {
    MarkerIsScalars();
    BodyIsMarked(ctx, out.fields);
    assert Ref !in body && Ref !in out.fields;
  }

  /** Compiling a structural schema. */
  lemma {:induction false} Stable(ctx: Context, out: Value, refs: set<string>)
    requires Normal(ctx, out)
    ensures Fixed(ctx, out, refs)
    decreases out, 2
  {
    var body := out.fields - {AnyOf};
    assert SameChildren(out.fields, body);
    ConvertIsPlain(ctx, out, body, refs);
    ChildrenStable(ctx, out, body, refs);
    PlainStable(ctx, out, body, refs);
  }

  /** What one compilation returned is returned unchanged by the next exactly when it is unmixed,
      that is, when no node falls under the compiler's own check for both kinds of properties. */
  lemma CompiledAgain(ctx: Context, raw: Value, refs: set<string>, again: set<string>)
    requires Convert(ctx, raw, refs).Some?
    ensures var out := Dict(Convert(ctx, raw, refs).value);
            Normal(ctx, out) && (Convert(ctx, out, again) == Some(out.fields) <==> Unmixed(ctx, out))
                             && (Convert(ctx, out, again) == None <==> !Unmixed(ctx, out))
  {
    ConvertNormal(ctx, raw, refs);
    Stable(ctx, Dict(Convert(ctx, raw, refs).value), again);
  }

  // ----- the exception -----

  /** An embedded resource with empty properties and a value schema for all others. */
  const EMBEDDED := Dict(map[Type := Str(ObjectType), EmbeddedResource := YES, Properties := Dict(map[]),
                             AdditionalProperties := Typed(StringType)])

  lemma StringIsFixed(ctx: Context)
    ensures Convert(ctx, Typed(StringType), {}) == Some(Typed(StringType).fields)
  {
    var node: Fields := map[Type := Str(StringType)];
    assert Typed(StringType).fields == node;
    assert Shape(ctx, node) by { assert node - {AnyOf} == node; }
    Stable(ctx, Typed(StringType), {});
  }

  lemma ObjectReady(ctx: Context, node: Fields)
    requires node.Keys <= {Type, EmbeddedResource, Properties, AdditionalProperties}
    requires Lookup(node, Type) == Str(ObjectType) && !Lookup(node, AdditionalProperties).Bool?
    ensures Prepared(ctx, node) == Some(node)
  {
    assert Ready(ctx, node);
    PreparedFixed(ctx, node);
  }

  lemma EmbeddedReady(ctx: Context)
    ensures Prepared(ctx, EMBEDDED.fields) == Some(EMBEDDED.fields)
  {
    ObjectReady(ctx, EMBEDDED.fields);
  }

  const COMPILED := Dict(EMBEDDED.fields[Properties := OPEN_METADATA])

  lemma ExtraString(ctx: Context, raw: Value)
    requires raw.Dict? && Lookup(raw.fields, AdditionalProperties) == Typed(StringType)
             && !On(ctx, raw.fields, Properties)
    ensures ConvertExtra(ctx, raw, raw.fields, {}) == Some(map[AdditionalProperties := Typed(StringType)])
  {
    StringIsFixed(ctx);
  }

  lemma EmbeddedProps(ctx: Context)
    ensures ConvertProps(ctx, EMBEDDED, EMBEDDED.fields, {}) == Some(map[Properties := OPEN_METADATA])
  {
    EmptyFields(ctx, EMBEDDED, {}, true);
  }

  lemma EmbeddedChildren(ctx: Context)
    ensures ConvertChildren(ctx, EMBEDDED, EMBEDDED.fields, {})
            == Some(map[AdditionalProperties := Typed(StringType), Properties := OPEN_METADATA])
  {
    ExtraString(ctx, EMBEDDED);
    EmbeddedProps(ctx);
    var extra, props := map[AdditionalProperties := Typed(StringType)], map[Properties := OPEN_METADATA];
    assert ConvertItems(ctx, EMBEDDED, EMBEDDED.fields, {}) == Some(map[]);
    assert extra + props + map[] == map[AdditionalProperties := Typed(StringType), Properties := OPEN_METADATA];
  }

  lemma EmbeddedCompleted(ctx: Context, children: Fields)
    requires children == map[AdditionalProperties := Typed(StringType), Properties := OPEN_METADATA]
    ensures Completed(ctx, EMBEDDED.fields + children) == Some(COMPILED.fields)
  {
    var whole := EMBEDDED.fields + children;
    assert whole == COMPILED.fields;
    assert Lookup(whole, Type) == Str(ObjectType) && IntOrString !in whole;
  }

  /** The steps for a node that is prepared already. */
  lemma ConvertPrepared(ctx: Context, raw: Value, children: Fields)
    requires raw.Dict? && Ref !in raw.fields && AnyOf !in raw.fields && Prepared(ctx, raw.fields) == Some(raw.fields)
    requires ConvertChildren(ctx, raw, raw.fields, {}) == Some(children)
    ensures Convert(ctx, raw, {}) == Completed(ctx, raw.fields + children)
  {
  }

  /** It compiles once: the metadata is added to the empty properties after they were checked. */
  lemma EmbeddedOnce(ctx: Context)
    ensures Convert(ctx, EMBEDDED, {}) == Some(COMPILED.fields)
  {
    var children: Fields := map[AdditionalProperties := Typed(StringType), Properties := OPEN_METADATA];
    EmbeddedReady(ctx);
    EmbeddedChildren(ctx);
    ConvertPrepared(ctx, EMBEDDED, children);
    EmbeddedCompleted(ctx, children);
  }

  lemma CompiledIsMixed(ctx: Context)
    ensures Mixed(ctx, COMPILED.fields) && !Unmixed(ctx, COMPILED)
  {
    assert Metadata in OPEN_METADATA.fields;
  }

  /** But not twice. */
  lemma EmbeddedTwice(ctx: Context)
    ensures Convert(ctx, EMBEDDED, {}) == Some(COMPILED.fields) && Convert(ctx, COMPILED, {}) == None
  {
    EmbeddedOnce(ctx);
    CompiledIsMixed(ctx);
    CompiledAgain(ctx, EMBEDDED, {}, {});
  }
}
