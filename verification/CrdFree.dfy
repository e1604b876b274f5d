/** Keywords that the compiler never adds, and what that means for compiling a second time: without
    embedded resources in the document, every result is a fixed point. */
module CrdFree {
  import opened Wrappers
  import opened Crd
  import opened CrdConvert
  import opened CrdProofs
  import opened CrdStable

  /** What a node may show: one of the keywords, an exclusive flag without the bound that it is
      about, or an exclusive bound that equals the flag. */
  datatype Defect = Uses(w: Word) | LonelyFlag | TrueBound

  predicate Lonely(node: Fields, bound: Word, inclusive: Word) { Lookup(node, bound) == YES && inclusive !in node }

  predicate IsTrue(ctx: Context, node: Fields, bound: Word) {
    var x := Lookup(node, bound);
    !x.Null? && !x.Bool? && ctx.same(YES, x)
  }

  predicate Shows(ctx: Context, node: Fields, d: Defect) {
    match d
    case Uses(w) => w in node
    case LonelyFlag => Lonely(node, ExclusiveMinimum, Minimum) || Lonely(node, ExclusiveMaximum, Maximum)
    case TrueBound => IsTrue(ctx, node, ExclusiveMinimum) || IsTrue(ctx, node, ExclusiveMaximum)
  }

  predicate Carried(d: Defect) {
    d.Uses? ==> d.w.EmbeddedResource? || d.w.AdditionalProperties? || d.w.Properties?
  }

  /** No node of the schema shows the defect. */
  predicate Free(ctx: Context, s: Value, d: Defect)
    decreases s, 1
  {
    s.Dict? ==>
      && !Shows(ctx, s.fields, d)
      && FreeBelow(ctx, s, Properties, d) && FreeBelow(ctx, s, Items, d)
      && FreeBelow(ctx, s, AdditionalProperties, d) && FreeBelow(ctx, s, AnyOf, d)
  }

  predicate FreeBelow(ctx: Context, s: Value, key: Word, d: Defect)
    requires s.Dict?
    decreases s, 0
  {
    key in s.fields ==>
      var below := s.fields[key];
      if key == Properties then FreeFields(ctx, below, d)
      else if key == AnyOf then below.Arr? && below != INT_OR_STRING ==> forall v <- below.items :: Free(ctx, v, d)
      else Free(ctx, below, d)
  }

  predicate FreeFields(ctx: Context, props: Value, d: Defect)
    decreases props, 0
  {
    props.Dict? ==> forall k <- props.fields :: Free(ctx, props.fields[k], d)
  }

  predicate FreeContext(ctx: Context, d: Defect) {
    forall name <- ctx.definitions :: Free(ctx, ctx.definitions[name], d)
  }

  lemma SameBelow(ctx: Context, a: Fields, b: Fields, key: Word, d: Defect)
    requires SameAt(a, b, key)
    ensures FreeBelow(ctx, Dict(a), key, d) == FreeBelow(ctx, Dict(b), key, d)
  {
  }

  lemma UnionBelow(ctx: Context, a: Fields, b: Fields, key: Word, d: Defect)
    requires FreeBelow(ctx, Dict(a), key, d) && FreeBelow(ctx, Dict(b), key, d)
    ensures FreeBelow(ctx, Dict(a + b), key, d)
  {
    if key in b { SameBelow(ctx, a + b, b, key, d); } else { SameBelow(ctx, a + b, a, key, d); }
  }

  lemma FreeUnion(ctx: Context, a: Fields, b: Fields, d: Defect)
    requires Free(ctx, Dict(a), d) && Free(ctx, Dict(b), d)
    ensures Free(ctx, Dict(a + b), d)
  {
    UnionBelow(ctx, a, b, Properties, d);
    UnionBelow(ctx, a, b, Items, d);
    UnionBelow(ctx, a, b, AdditionalProperties, d);
    UnionBelow(ctx, a, b, AnyOf, d);
  }

  lemma FreeWithout(ctx: Context, node: Fields, key: Word, d: Defect)
    requires Free(ctx, Dict(node), d) && (key == Ref || key == AnyOf)
    ensures Free(ctx, Dict(node - {key}), d)
  {
    SameBelow(ctx, node - {key}, node, Properties, d);
    SameBelow(ctx, node - {key}, node, Items, d);
    SameBelow(ctx, node - {key}, node, AdditionalProperties, d);
    if key == Ref { SameBelow(ctx, node - {key}, node, AnyOf, d); }
  }

  lemma FreeFinally(ctx: Context, merged: Fields, nullable: bool, d: Defect)
    requires Free(ctx, Dict(merged), d) && Carried(d)
    ensures Free(ctx, Dict(Finally(merged, nullable)), d)
  {
    if nullable {
      FreeUnion(ctx, merged, map[Nullable := YES], d);
      assert merged + map[Nullable := YES] == merged[Nullable := YES];
    }
  }

  // ----- preparing a node adds none of them -----

  lemma ListsFree(ctx: Context, node: Fields, d: Defect)
    requires Carried(d) && !Shows(ctx, node, d)
    ensures TypeList(node).Some? ==> !Shows(ctx, TypeList(node).value, d)
    ensures ConstEnum(ctx, node).Some? ==> !Shows(ctx, ConstEnum(ctx, node).value, d)
  {
  }

  lemma BoundFree(ctx: Context, node: Fields, bound: Word, inclusive: Word, lower: bool, d: Defect)
    requires !Shows(ctx, node, d) && Carried(d)
    requires (bound == ExclusiveMinimum && inclusive == Minimum) || (bound == ExclusiveMaximum && inclusive == Maximum)
    ensures !Shows(ctx, Bound(ctx, node, bound, inclusive, lower), d)
  {
  }

  lemma ShownFree(ctx: Context, node: Fields, d: Defect)
    requires Carried(d) && !Shows(ctx, node, d) && FirstExample(ctx, node).Some?
    ensures !Shows(ctx, FirstExample(ctx, node).value, d) && !Shows(ctx, OpenObject(FirstExample(ctx, node).value), d)
  {
  }

  lemma MarkedFree(ctx: Context, node: Fields, nullable: bool, d: Defect)
    requires Carried(d) && !Shows(ctx, node, d)
    ensures !Shows(ctx, Marked(node, nullable), d)
  {
  }

  lemma StagesFree(ctx: Context, node: Fields, typed: Fields, listed: Fields, d: Defect)
    requires Carried(d) && !Shows(ctx, node, d)
    requires TypeList(node) == Some(typed) && ConstEnum(ctx, typed) == Some(listed)
    ensures !Shows(ctx, Bounds(ctx, listed), d)
  {
    ListsFree(ctx, node, d);
    ListsFree(ctx, typed, d);
    BoundFree(ctx, listed, ExclusiveMinimum, Minimum, true, d);
    BoundFree(ctx, Bound(ctx, listed, ExclusiveMinimum, Minimum, true), ExclusiveMaximum, Maximum, false, d);
  }

  lemma UniqueFree(ctx: Context, node: Fields, d: Defect)
    requires Carried(d) && !Shows(ctx, node, d)
    ensures !Shows(ctx, node - {UniqueItems}, d)
  {
  }

  lemma PreparedFree(ctx: Context, node: Fields, d: Defect)
    requires Carried(d) && !Shows(ctx, node, d) && Prepared(ctx, node).Some?
    ensures !Shows(ctx, Prepared(ctx, node).value, d)
  {
    var listed := ConstEnum(ctx, TypeList(node).value).value;
    StagesFree(ctx, node, TypeList(node).value, listed, d);
    UniqueFree(ctx, Bounds(ctx, listed), d);
    ShownFree(ctx, Bounds(ctx, listed) - {UniqueItems}, d);
  }

  lemma CompletedFree(ctx: Context, whole: Fields, d: Defect)
    requires Carried(d) && !Shows(ctx, whole, d) && AnyOf !in whole && Completed(ctx, whole).Some?
    ensures !Shows(ctx, Completed(ctx, whole).value, d) && !Redex(Completed(ctx, whole).value)
  {
  }

  // ----- nor does the rewrite -----

  lemma {:induction false} ConvertFree(ctx: Context, raw: Value, refs: set<string>, d: Defect)
    requires Carried(d) && FreeContext(ctx, d) && Free(ctx, raw, d) && Convert(ctx, raw, refs).Some?
    ensures Free(ctx, Dict(Convert(ctx, raw, refs).value), d)
    decreases |ctx.definitions.Keys - refs|, Rank(raw), raw, 6
  {
    if Ref in raw.fields {
      var expansion := Expanded(ctx, raw.fields, refs).value;
      Fewer(ctx.definitions.Keys, refs, expansion.name);
      ExpandedFree(ctx, raw.fields, refs, d);
      ConvertFree(ctx, Dict(expansion.fields), refs + {expansion.name}, d);
    } else if AnyOf in raw.fields {
      UnionFree(ctx, raw, refs, d);
    } else {
      PlainFree(ctx, raw, raw.fields, refs, d);
    }
  }

  lemma {:induction false} UnionFree(ctx: Context, raw: Value, refs: set<string>, d: Defect)
    requires Carried(d) && FreeContext(ctx, d) && Free(ctx, raw, d) && Convert(ctx, raw, refs).Some?
    requires Ref !in raw.fields && AnyOf in raw.fields
    ensures Free(ctx, Dict(Convert(ctx, raw, refs).value), d)
    decreases |ctx.definitions.Keys - refs|, Rank(raw), raw, 5
  {
    match UnionOf(raw.fields[AnyOf])
    case Scalars(nullable) =>
      MarkedFrame(raw.fields, nullable);
      MarkedFree(ctx, raw.fields, nullable, d);
      PlainFree(ctx, raw, Marked(raw.fields, nullable), refs, d);
    case Single(branch, nullable) => SingleFree(ctx, raw, refs, branch, nullable, d);
  }

  lemma ExpandedFree(ctx: Context, node: Fields, refs: set<string>, d: Defect)
    requires FreeContext(ctx, d) && Free(ctx, Dict(node), d) && Ref in node && Expanded(ctx, node, refs).Some?
    ensures Free(ctx, Dict(Expanded(ctx, node, refs).value.fields), d)
  {
    var expansion := Expanded(ctx, node, refs).value;
    FreeWithout(ctx, node, Ref, d);
    assert Free(ctx, ctx.definitions[expansion.name], d);
    FreeUnion(ctx, ctx.definitions[expansion.name].fields, node - {Ref}, d);
  }

  lemma {:induction false} SingleFree(ctx: Context, raw: Value, refs: set<string>, branch: Value, nullable: bool,
                                      d: Defect)
    requires raw.Dict? && Redex(raw.fields) && raw.fields[AnyOf].Arr? && branch in raw.fields[AnyOf].items
    requires Carried(d) && FreeContext(ctx, d) && Free(ctx, raw, d)
    requires ConvertSingle(ctx, raw, refs, branch, nullable).Some?
    ensures Free(ctx, Dict(ConvertSingle(ctx, raw, refs, branch, nullable).value), d)
    decreases |ctx.definitions.Keys - refs|, Rank(raw), raw, 2
  {
    var rest := raw.fields - {AnyOf};
    BranchRank(raw, branch);
    RankRest(raw.fields);
    ConvertFree(ctx, branch, refs, d);
    FreeWithout(ctx, raw.fields, AnyOf, d);
    if Type in rest { ConvertFree(ctx, Dict(rest), refs, d); }
    var left := Convert(ctx, branch, refs).value;
    var right := if Type in rest then Convert(ctx, Dict(rest), refs).value else rest;
    SingleRank(raw, left, right, nullable);
    FreeUnion(ctx, left, right, d);
    FreeFinally(ctx, left + right, nullable, d);
    ConvertFree(ctx, Dict(Finally(left + right, nullable)), refs, d);
  }

  lemma FieldFree(ctx: Context, node: Fields, k: Word, d: Defect)
    requires Free(ctx, Dict(node), d) && Properties in node && node[Properties].Dict? && k in node[Properties].fields
    ensures Free(ctx, node[Properties].fields[k], d)
  {
    assert FreeBelow(ctx, Dict(node), Properties, d);
    assert FreeFields(ctx, node[Properties], d);
  }

  lemma BelowFree(ctx: Context, node: Fields, key: Word, d: Defect)
    requires Free(ctx, Dict(node), d) && key in node && (key == Items || key == AdditionalProperties)
    ensures Free(ctx, node[key], d)
  {
    assert FreeBelow(ctx, Dict(node), key, d);
  }

  lemma {:induction false} FieldsFree(ctx: Context, raw: Value, refs: set<string>, embedded: bool, d: Defect)
    requires raw.Dict? && Properties in raw.fields && raw.fields[Properties].Dict?
    requires Carried(d) && FreeContext(ctx, d) && Free(ctx, raw, d)
    requires ConvertFields(ctx, raw, refs, embedded).Some?
    ensures FreeFields(ctx, Dict(ConvertFields(ctx, raw, refs, embedded).value), d)
    decreases |ctx.definitions.Keys - refs|, Rank(raw), raw, 1
  {
    RankChildren(raw);
    var r := ConvertFields(ctx, raw, refs, embedded).value;
    forall k <- r ensures Free(ctx, r[k], d) {
      assert ConvertField(ctx, raw, refs, embedded, k) == Some(r[k]);
      if !(embedded && k == Metadata) {
        FieldFree(ctx, raw.fields, k, d);
        ConvertFree(ctx, raw.fields[Properties].fields[k], refs, d);
      }
    }
  }

  predicate FreeChildren(ctx: Context, children: Fields, d: Defect) {
    && FreeBelow(ctx, Dict(children), Properties, d) && FreeBelow(ctx, Dict(children), Items, d)
    && FreeBelow(ctx, Dict(children), AdditionalProperties, d)
  }

  lemma {:induction false} ChildrenFree(ctx: Context, raw: Value, p: Fields, refs: set<string>, d: Defect)
    requires raw.Dict? && SameAt(p, raw.fields, Properties) && SameAt(p, raw.fields, Items)
    requires Lookup(p, AdditionalProperties).Dict? ==> SameAt(p, raw.fields, AdditionalProperties)
    requires Carried(d) && FreeContext(ctx, d) && Free(ctx, raw, d)
    requires ConvertChildren(ctx, raw, p, refs).Some?
    ensures FreeChildren(ctx, ConvertChildren(ctx, raw, p, refs).value, d)
    decreases |ctx.definitions.Keys - refs|, Rank(raw), raw, 3
  {
    RankChildren(raw);
    if Lookup(p, AdditionalProperties).Dict? {
      BelowFree(ctx, raw.fields, AdditionalProperties, d);
      ConvertFree(ctx, p[AdditionalProperties], refs, d);
    }
    if Properties in p { FieldsFree(ctx, raw, refs, On(ctx, p, EmbeddedResource), d); }
    if Items in p {
      BelowFree(ctx, raw.fields, Items, d);
      ConvertFree(ctx, p[Items], refs, d);
    }
    var extra := ConvertExtra(ctx, raw, p, refs).value;
    var props := ConvertProps(ctx, raw, p, refs).value;
    var items := ConvertItems(ctx, raw, p, refs).value;
    Joins(extra, props, items);
    JoinedFree(ctx, extra, props, items, extra + props + items, d);
  }

  lemma Joins(extra: Fields, props: Fields, items: Fields)
    requires extra.Keys <= {AdditionalProperties} && props.Keys <= {Properties} && items.Keys <= {Items}
    ensures var children := extra + props + items;
            && SameAt(children, extra, AdditionalProperties) && SameAt(children, props, Properties)
            && SameAt(children, items, Items)
  {
  }

  lemma JoinedFree(ctx: Context, extra: Fields, props: Fields, items: Fields, children: Fields, d: Defect)
    requires SameAt(children, extra, AdditionalProperties) && SameAt(children, props, Properties)
    requires SameAt(children, items, Items)
    requires FreeBelow(ctx, Dict(extra), AdditionalProperties, d) && FreeBelow(ctx, Dict(props), Properties, d)
    requires FreeBelow(ctx, Dict(items), Items, d)
    ensures FreeChildren(ctx, children, d)
  {
    SameBelow(ctx, children, extra, AdditionalProperties, d);
    SameBelow(ctx, children, props, Properties, d);
    SameBelow(ctx, children, items, Items, d);
  }

  lemma JoinedShows(ctx: Context, p: Fields, children: Fields, d: Defect)
    requires Carried(d) && !Shows(ctx, p, d) && ChildrenOf(p, children) && !Lookup(p, AdditionalProperties).Bool?
    ensures !Shows(ctx, p + children, d)
  {
  }

  lemma CompletedWhole(ctx: Context, p: Fields, children: Fields, d: Defect)
    requires Carried(d) && !Shows(ctx, p, d) && AnyOf !in p && ChildrenOf(p, children) && FreeChildren(ctx, children, d)
    requires !Lookup(p, AdditionalProperties).Bool? && Completed(ctx, p + children).Some?
    ensures Free(ctx, Dict(Completed(ctx, p + children).value), d)
  {
    assert AnyOf !in children;
    JoinedShows(ctx, p, children, d);
    CompletedFree(ctx, p + children, d);
    CompletedElsewhere(ctx, p + children);
    WholeChildren(p, children, Completed(ctx, p + children).value);
    WholeFree(ctx, children, Completed(ctx, p + children).value, d);
  }

  lemma {:induction false} PlainFree(ctx: Context, raw: Value, node: Fields, refs: set<string>, d: Defect)
    requires raw.Dict? && SameChildren(raw.fields, node) && !Shows(ctx, node, d) && Plain(ctx, raw, node, refs).Some?
    requires Carried(d) && FreeContext(ctx, d) && Free(ctx, raw, d)
    ensures Free(ctx, Dict(Plain(ctx, raw, node, refs).value), d)
    decreases |ctx.definitions.Keys - refs|, Rank(raw), raw, 4
  {
    PreparedFrame(ctx, node);
    PreparedPlain(ctx, node);
    PreparedFree(ctx, node, d);
    var p := Prepared(ctx, node).value;
    ChildrenFree(ctx, raw, p, refs, d);
    var children := ConvertChildren(ctx, raw, p, refs).value;
    CompletedWhole(ctx, p, children, d);
  }

  lemma WholeChildren(p: Fields, children: Fields, r: Fields)
    requires ChildrenOf(p, children) && SameChildren(r, p + children)
    ensures SameAt(r, children, Properties) && SameAt(r, children, Items)
    ensures SameAt(r, children, AdditionalProperties) || !Lookup(r, AdditionalProperties).Dict?
  {
  }

  lemma WholeFree(ctx: Context, children: Fields, r: Fields, d: Defect)
    requires FreeChildren(ctx, children, d) && !Shows(ctx, r, d) && !Redex(r)
    requires SameAt(r, children, Properties) && SameAt(r, children, Items)
    requires SameAt(r, children, AdditionalProperties) || !Lookup(r, AdditionalProperties).Dict?
    ensures Free(ctx, Dict(r), d)
  {
    SameBelow(ctx, r, children, Properties, d);
    SameBelow(ctx, r, children, Items, d);
    if SameAt(r, children, AdditionalProperties) {
      SameBelow(ctx, r, children, AdditionalProperties, d);
    } else {
      ScalarBelow(ctx, r, d);
    }
    ResolvedBelow(ctx, r, d);
  }

  lemma ScalarBelow(ctx: Context, r: Fields, d: Defect)
    requires !Lookup(r, AdditionalProperties).Dict?
    ensures FreeBelow(ctx, Dict(r), AdditionalProperties, d)
  {
  }

  lemma ResolvedBelow(ctx: Context, r: Fields, d: Defect)
    requires !Redex(r)
    ensures FreeBelow(ctx, Dict(r), AnyOf, d)
  {
  }

  // ----- compiling twice -----

  /** A structural schema without one of the keywords has no node with both kinds of properties. */
  lemma {:induction false} FreeUnmixed(ctx: Context, out: Value, w: Word)
    requires Normal(ctx, out) && Free(ctx, out, Uses(w)) && Carried(Uses(w))
    ensures Unmixed(ctx, out)
    decreases out
  {
    var node := out.fields;
    if Properties in node {
      forall k <- node[Properties].fields ensures Unmixed(ctx, node[Properties].fields[k]) {
        FieldFree(ctx, node, k, Uses(w));
        FreeUnmixed(ctx, node[Properties].fields[k], w);
      }
    }
    if Items in node {
      BelowFree(ctx, node, Items, Uses(w));
      FreeUnmixed(ctx, node[Items], w);
    }
    if Lookup(node, AdditionalProperties).Dict? {
      BelowFree(ctx, node, AdditionalProperties, Uses(w));
      FreeUnmixed(ctx, node[AdditionalProperties], w);
    }
  }

  /** A document that nowhere embeds a resource, or nowhere has one of the two kinds of
      properties, compiles to a fixed point. */
  lemma FreeCompiledAgain(ctx: Context, raw: Value, refs: set<string>, again: set<string>, w: Word)
    requires Carried(Uses(w)) && FreeContext(ctx, Uses(w)) && Free(ctx, raw, Uses(w)) && Convert(ctx, raw, refs).Some?
    ensures Convert(ctx, Dict(Convert(ctx, raw, refs).value), again) == Convert(ctx, raw, refs)
  {
    ConvertFree(ctx, raw, refs, Uses(w));
    CompiledAgain(ctx, raw, refs, again);
    FreeUnmixed(ctx, Dict(Convert(ctx, raw, refs).value), w);
  }
}
