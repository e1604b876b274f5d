/** What the rewrite returns is structural, and compiling it again changes nothing, with one
    exact exception. */
module CrdProofs {
  import opened Wrappers
  import opened Crd
  import opened CrdConvert

  // ----- the normal form -----

  /** No reference, const, examples or null union. */
  predicate Body(ctx: Context, node: Fields) {
    && Ready(ctx, node)
    && (Untyped(ctx, node) ==> OpenKeys(node) && Lookup(node, PreserveUnknown) == YES && Lookup(node, Nullable) == YES)
    && Extensions(ctx, node)
  }

  predicate OpenKeys(node: Fields) { forall k <- node :: Annotation(k) || k == Nullable || k == PreserveUnknown }

  /** A union remains only as the int-or-string marker. */
  predicate Shape(ctx: Context, node: Fields) {
    && Body(ctx, node - {AnyOf})
    && (AnyOf in node <==> On(ctx, node - {AnyOf}, IntOrString)) && (AnyOf in node ==> node[AnyOf] == INT_OR_STRING)
  }

  predicate Settled(bound: Value) { bound.Null? || bound.Bool? }

  predicate Normal(ctx: Context, s: Value)
    decreases s, 1
  {
    && s.Dict? && Shape(ctx, s.fields)
    && (Properties in s.fields ==> NormalFields(ctx, s.fields[Properties], On(ctx, s.fields, EmbeddedResource)))
    && (Items in s.fields ==> Normal(ctx, s.fields[Items]))
    && (Lookup(s.fields, AdditionalProperties).Dict? ==> Normal(ctx, s.fields[AdditionalProperties]))
    && (Mixed(ctx, s.fields) ==> On(ctx, s.fields, EmbeddedResource) && s.fields[Properties] == OPEN_METADATA)
  }

  /** A node with both kinds of properties, which the compiler refuses as input. */
  predicate Mixed(ctx: Context, node: Fields) { Lookup(node, AdditionalProperties).Dict? && On(ctx, node, Properties) }

  const OPEN_METADATA := Dict(map[Metadata := Typed(ObjectType)])

  predicate NormalFields(ctx: Context, props: Value, embedded: bool)
    decreases props, 0
  {
    && props.Dict? && (forall k <- props.fields :: Normal(ctx, props.fields[k]))
    && (embedded ==> Metadata in props.fields && props.fields[Metadata] == Typed(ObjectType))
  }

  /** A node of a prepared shape, before its children are converted. */
  predicate Ready(ctx: Context, p: Fields) {
    && Acceptable(p) && !Lookup(p, AdditionalProperties).Bool?
    && Settled(Lookup(p, ExclusiveMinimum)) && Settled(Lookup(p, ExclusiveMaximum))
  }

  lemma BoundSettles(ctx: Context, node: Fields, bound: Word, inclusive: Word, lower: bool)
    requires bound != inclusive
    ensures Settled(Lookup(Bound(ctx, node, bound, inclusive, lower), bound))
    ensures forall k :: k != bound && k != inclusive ==> SameAt(Bound(ctx, node, bound, inclusive, lower), node, k)
  {
  }

  lemma FirstExampleElsewhere(ctx: Context, node: Fields)
    requires FirstExample(ctx, node).Some?
    ensures forall k :: k != Example && k != Examples ==> SameAt(FirstExample(ctx, node).value, node, k)
  {
  }

  lemma BoundsSettle(ctx: Context, node: Fields)
    ensures Settled(Lookup(Bounds(ctx, node), ExclusiveMinimum)) && Settled(Lookup(Bounds(ctx, node), ExclusiveMaximum))
  {
    var lower := Bound(ctx, node, ExclusiveMinimum, Minimum, true);
    BoundSettles(ctx, node, ExclusiveMinimum, Minimum, true);
    BoundSettles(ctx, lower, ExclusiveMaximum, Maximum, false);
    assert SameAt(Bounds(ctx, node), lower, ExclusiveMinimum);
  }

  lemma ShownReady(ctx: Context, bounded: Fields)
    requires Settled(Lookup(bounded, ExclusiveMinimum)) && Settled(Lookup(bounded, ExclusiveMaximum))
    requires FirstExample(ctx, bounded - {UniqueItems}).Some?
             && Acceptable(FirstExample(ctx, bounded - {UniqueItems}).value)
    ensures Ready(ctx, OpenObject(FirstExample(ctx, bounded - {UniqueItems}).value))
  {
    var rest := bounded - {UniqueItems};
    FirstExampleElsewhere(ctx, rest);
    var shown := FirstExample(ctx, rest).value;
    assert SameAt(shown, rest, ExclusiveMinimum) && SameAt(shown, rest, ExclusiveMaximum);
    OpenReady(ctx, shown);
  }

  lemma OpenReady(ctx: Context, shown: Fields)
    requires Acceptable(shown) && Settled(Lookup(shown, ExclusiveMinimum)) && Settled(Lookup(shown, ExclusiveMaximum))
    ensures Ready(ctx, OpenObject(shown))
  {
    if Lookup(shown, AdditionalProperties) == YES {
      var rest := shown - {AdditionalProperties};
      SameReady(ctx, shown, rest);
      SameReady(ctx, rest, rest[PreserveUnknown := YES]);
    }
  }

  /** Readiness looks at the keywords, the type and the bounds, and at items and additional
      properties only to refuse them. */
  lemma SameReady(ctx: Context, a: Fields, b: Fields)
    requires Acceptable(a) && Settled(Lookup(a, ExclusiveMinimum)) && Settled(Lookup(a, ExclusiveMaximum))
    requires (forall k <- b :: Keyword(k)) && SameAt(a, b, Type) && (Items in a ==> Items in b)
    requires SameAt(a, b, ExclusiveMinimum) && SameAt(a, b, ExclusiveMaximum)
    requires !Lookup(b, AdditionalProperties).Bool?
    ensures Ready(ctx, b)
  {
  }

  lemma PreparedReady(ctx: Context, node: Fields)
    requires Prepared(ctx, node).Some?
    ensures Ready(ctx, Prepared(ctx, node).value)
  {
    var enumerated := ConstEnum(ctx, TypeList(node).value).value;
    BoundsSettle(ctx, enumerated);
    ShownReady(ctx, Bounds(ctx, enumerated));
  }

  lemma WholeReady(ctx: Context, p: Fields, children: Fields)
    requires Ready(ctx, p) && children.Keys <= {Properties, Items, AdditionalProperties}
    requires AdditionalProperties in children ==> children[AdditionalProperties].Dict?
    ensures Ready(ctx, p + children)
  {
    var whole := p + children;
    assert SameAt(whole, p, Type) && SameAt(whole, p, ExclusiveMinimum) && SameAt(whole, p, ExclusiveMaximum);
    SameReady(ctx, p, whole);
  }

  lemma FilledBody(ctx: Context, whole: Fields, filled: Fields)
    requires Ready(ctx, whole) && Untyped(ctx, whole) && OpenKeys(whole)
             && filled == whole[PreserveUnknown := YES][Nullable := YES]
    ensures Ready(ctx, filled) && Untyped(ctx, filled) && OpenKeys(filled)
  {
    assert SameAt(filled, whole, Type) && SameAt(filled, whole, IntOrString)
           && SameAt(filled, whole, AdditionalProperties);
    assert SameAt(filled, whole, ExclusiveMinimum) && SameAt(filled, whole, ExclusiveMaximum);
  }

  lemma MarkedShape(ctx: Context, filled: Fields, r: Fields)
    requires Body(ctx, filled)
    requires r == if On(ctx, filled, IntOrString) then filled[AnyOf := INT_OR_STRING] else filled
    ensures Shape(ctx, r) && r - {AnyOf} == filled
  {
    assert AnyOf !in filled;
    assert r - {AnyOf} == filled;
  }

  lemma CompletedShape(ctx: Context, whole: Fields)
    requires Ready(ctx, whole) && Completed(ctx, whole).Some?
    ensures Shape(ctx, Completed(ctx, whole).value)
  {
    var filled := if Untyped(ctx, whole) then whole[PreserveUnknown := YES][Nullable := YES] else whole;
    if Untyped(ctx, whole) { FilledBody(ctx, whole, filled); }
    MarkedShape(ctx, filled, Completed(ctx, whole).value);
  }

  lemma CompletedElsewhere(ctx: Context, whole: Fields)
    requires Completed(ctx, whole).Some?
    ensures var r := Completed(ctx, whole).value; SameChildren(r, whole) && SameAt(r, whole, EmbeddedResource)
  {
  }

  // ----- every result is normal -----

  lemma {:induction false} ConvertNormal(ctx: Context, raw: Value, refs: set<string>)
    requires Convert(ctx, raw, refs).Some?
    ensures Normal(ctx, Dict(Convert(ctx, raw, refs).value))
    decreases |ctx.definitions.Keys - refs|, Rank(raw), raw, 5
  {
    if Ref in raw.fields {
      var expansion := Expanded(ctx, raw.fields, refs).value;
      Fewer(ctx.definitions.Keys, refs, expansion.name);
      ConvertNormal(ctx, Dict(expansion.fields), refs + {expansion.name});
    } else if AnyOf in raw.fields {
      match UnionOf(raw.fields[AnyOf])
      case Scalars(nullable) =>
        MarkedFrame(raw.fields, nullable);
        PlainNormal(ctx, raw, Marked(raw.fields, nullable), refs);
      case Single(branch, nullable) => SingleNormal(ctx, raw, refs, branch, nullable);
    } else {
      PlainNormal(ctx, raw, raw.fields, refs);
    }
  }

  lemma {:induction false} SingleNormal(ctx: Context, raw: Value, refs: set<string>, branch: Value, nullable: bool)
    requires raw.Dict? && Redex(raw.fields) && raw.fields[AnyOf].Arr? && branch in raw.fields[AnyOf].items
    requires ConvertSingle(ctx, raw, refs, branch, nullable).Some?
    ensures Normal(ctx, Dict(ConvertSingle(ctx, raw, refs, branch, nullable).value))
    decreases |ctx.definitions.Keys - refs|, Rank(raw), raw, 2
  {
    var rest := raw.fields - {AnyOf};
    BranchRank(raw, branch);
    RankRest(raw.fields);
    var left := Convert(ctx, branch, refs).value;
    var right := if Type in rest then Convert(ctx, Dict(rest), refs).value else rest;
    SingleRank(raw, left, right, nullable);
    ConvertNormal(ctx, Dict(Finally(left + right, nullable)), refs);
  }

  predicate NormalChildren(ctx: Context, children: Fields, embedded: bool) {
    && (Properties in children ==> NormalFields(ctx, children[Properties], embedded))
    && (Items in children ==> Normal(ctx, children[Items]))
    && (AdditionalProperties in children ==> Normal(ctx, children[AdditionalProperties]))
    && (AdditionalProperties in children && On(ctx, children, Properties) ==>
         embedded && children[Properties] == OPEN_METADATA)
  }

  /** Empty properties stay empty, but for the metadata of an embedded resource. */
  lemma EmptyFields(ctx: Context, raw: Value, refs: set<string>, embedded: bool)
    requires raw.Dict? && Properties in raw.fields && raw.fields[Properties] == Dict(map[])
    ensures ConvertFields(ctx, raw, refs, embedded) == Some(if embedded then OPEN_METADATA.fields else map[])
  {
    var names := FieldNames(raw, embedded);
    assert names == if embedded then {Metadata} else {};
    assert forall k <- names :: ConvertField(ctx, raw, refs, embedded, k) == Some(Typed(ObjectType));
    var r := ConvertFields(ctx, raw, refs, embedded);
    assert r.Some? && r.value == if embedded then OPEN_METADATA.fields else map[];
  }

  lemma OpenMetadataNormal(ctx: Context)
    ensures Normal(ctx, Typed(ObjectType))
  {
    var node: Fields := map[Type := Str(ObjectType)];
    assert Typed(ObjectType).fields == node;
  }

  lemma {:induction false} FieldsNormal(ctx: Context, raw: Value, refs: set<string>, embedded: bool)
    requires raw.Dict? && Properties in raw.fields && raw.fields[Properties].Dict?
    requires ConvertFields(ctx, raw, refs, embedded).Some?
    ensures NormalFields(ctx, Dict(ConvertFields(ctx, raw, refs, embedded).value), embedded)
    decreases |ctx.definitions.Keys - refs|, Rank(raw), raw, 1
  {
    RankChildren(raw);
    var r := ConvertFields(ctx, raw, refs, embedded).value;
    forall k <- r ensures Normal(ctx, r[k]) {
      assert ConvertField(ctx, raw, refs, embedded, k) == Some(r[k]);
      if embedded && k == Metadata {
        OpenMetadataNormal(ctx);
      } else {
        ConvertNormal(ctx, raw.fields[Properties].fields[k], refs);
      }
    }
    assert embedded ==> ConvertField(ctx, raw, refs, embedded, Metadata) == Some(Typed(ObjectType));
  }

  lemma {:induction false} ExtraNormal(ctx: Context, raw: Value, p: Fields, refs: set<string>)
    requires raw.Dict? && (Lookup(p, AdditionalProperties).Dict? ==> SameAt(p, raw.fields, AdditionalProperties))
    requires ConvertExtra(ctx, raw, p, refs).Some?
    ensures var r := ConvertExtra(ctx, raw, p, refs).value;
            AdditionalProperties in r ==> Normal(ctx, r[AdditionalProperties]) && !On(ctx, p, Properties)
    decreases |ctx.definitions.Keys - refs|, Rank(raw), raw, 2
  {
    RankChildren(raw);
    if Lookup(p, AdditionalProperties).Dict? { ConvertNormal(ctx, p[AdditionalProperties], refs); }
  }

  lemma {:induction false} PropsNormal(ctx: Context, raw: Value, p: Fields, refs: set<string>)
    requires raw.Dict? && SameAt(p, raw.fields, Properties) && ConvertProps(ctx, raw, p, refs).Some?
    ensures var r, embedded := ConvertProps(ctx, raw, p, refs).value, On(ctx, p, EmbeddedResource);
            && (Properties in r ==> NormalFields(ctx, r[Properties], embedded))
            && (!On(ctx, p, Properties) && On(ctx, r, Properties) ==> embedded && r[Properties] == OPEN_METADATA)
    decreases |ctx.definitions.Keys - refs|, Rank(raw), raw, 2
  {
    if Properties in p {
      FieldsNormal(ctx, raw, refs, On(ctx, p, EmbeddedResource));
      if !On(ctx, p, Properties) { EmptyFields(ctx, raw, refs, On(ctx, p, EmbeddedResource)); }
    }
  }

  lemma {:induction false} ItemsNormal(ctx: Context, raw: Value, p: Fields, refs: set<string>)
    requires raw.Dict? && SameAt(p, raw.fields, Items) && ConvertItems(ctx, raw, p, refs).Some?
    ensures var r := ConvertItems(ctx, raw, p, refs).value; Items in r ==> Normal(ctx, r[Items])
    decreases |ctx.definitions.Keys - refs|, Rank(raw), raw, 2
  {
    RankChildren(raw);
    if Items in p { ConvertNormal(ctx, p[Items], refs); }
  }

  lemma JoinedNormal(ctx: Context, extra: Fields, props: Fields, items: Fields, embedded: bool, filled: bool)
    requires extra.Keys <= {AdditionalProperties} && props.Keys <= {Properties} && items.Keys <= {Items}
    requires AdditionalProperties in extra ==> Normal(ctx, extra[AdditionalProperties]) && !filled
    requires Properties in props ==> NormalFields(ctx, props[Properties], embedded)
    requires !filled && On(ctx, props, Properties) ==> embedded && props[Properties] == OPEN_METADATA
    requires Items in items ==> Normal(ctx, items[Items])
    ensures NormalChildren(ctx, extra + props + items, embedded)
  {
    var children := extra + props + items;
    assert SameAt(children, extra, AdditionalProperties) && SameAt(children, props, Properties)
           && SameAt(children, items, Items);
  }

  lemma {:induction false} ChildrenNormal(ctx: Context, raw: Value, p: Fields, refs: set<string>)
    requires raw.Dict? && SameAt(p, raw.fields, Properties) && SameAt(p, raw.fields, Items)
    requires Lookup(p, AdditionalProperties).Dict? ==> SameAt(p, raw.fields, AdditionalProperties)
    requires ConvertChildren(ctx, raw, p, refs).Some?
    ensures NormalChildren(ctx, ConvertChildren(ctx, raw, p, refs).value, On(ctx, p, EmbeddedResource))
    decreases |ctx.definitions.Keys - refs|, Rank(raw), raw, 3
  {
    ExtraNormal(ctx, raw, p, refs);
    PropsNormal(ctx, raw, p, refs);
    ItemsNormal(ctx, raw, p, refs);
    JoinedNormal(ctx, ConvertExtra(ctx, raw, p, refs).value, ConvertProps(ctx, raw, p, refs).value,
                 ConvertItems(ctx, raw, p, refs).value,
                 On(ctx, p, EmbeddedResource), On(ctx, p, Properties));
  }

  lemma {:induction false} PlainNormal(ctx: Context, raw: Value, node: Fields, refs: set<string>)
    requires raw.Dict? && SameChildren(raw.fields, node) && Plain(ctx, raw, node, refs).Some?
    ensures Normal(ctx, Dict(Plain(ctx, raw, node, refs).value))
    decreases |ctx.definitions.Keys - refs|, Rank(raw), raw, 4
  {
    PreparedFrame(ctx, node);
    PreparedReady(ctx, node);
    var p := Prepared(ctx, node).value;
    ChildrenNormal(ctx, raw, p, refs);
    var children := ConvertChildren(ctx, raw, p, refs).value;
    WholeReady(ctx, p, children);
    CompletedShape(ctx, p + children);
    CompletedElsewhere(ctx, p + children);
    WholeNormal(ctx, p, children, Completed(ctx, p + children).value);
  }

  lemma WholeNormal(ctx: Context, p: Fields, children: Fields, r: Fields)
    requires ChildrenOf(p, children) && NormalChildren(ctx, children, On(ctx, p, EmbeddedResource))
    requires Shape(ctx, r) && SameChildren(r, p + children) && SameAt(r, p + children, EmbeddedResource)
    ensures Normal(ctx, Dict(r))
  {
    assert SameAt(r, p, EmbeddedResource);
    assert SameAt(r, children, Properties) && SameAt(r, children, Items);
    assert AdditionalProperties in r && r[AdditionalProperties].Dict? ==> SameAt(r, children, AdditionalProperties);
  }
}
