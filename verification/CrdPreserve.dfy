/** Compiling keeps which values a document accepts: through references and unions, at every
    depth, null included. */
module CrdPreserve {
  import opened Wrappers
  import opened Crd
  import opened CrdConvert
  import opened CrdProofs
  import opened CrdStable
  import opened CrdMeaning
  import opened CrdNull
  import opened CrdFree
  import opened CrdAccept
  import opened CrdMerge

  // ----- preparing a node -----

  ghost predicate SameTests(a: Fields, b: Fields) { forall w | Tested(w) :: SameAt(a, b, w) }

  lemma SameTestsPass(judge: Judge, a: Fields, b: Fields, v: Value)
    requires SameTests(a, b)
    ensures Tests(judge, a, v) <==> Tests(judge, b, v)
  {
    forall w | Tested(w) && (w in a || w in b) ensures SameAt(a, b, w) {}
  }

  lemma ListsTests(ctx: Context, node: Fields)
    ensures TypeList(node).Some? ==> SameTests(TypeList(node).value, node)
    ensures ConstEnum(ctx, node).Some? ==> SameTests(ConstEnum(ctx, node).value, node)
  {
  }

  lemma BoundTests(ctx: Context, node: Fields, bound: Word, inclusive: Word, lower: bool)
    requires !Tested(bound) && !Tested(inclusive) && bound != inclusive
    ensures SameTests(Bound(ctx, node, bound, inclusive, lower), node)
  {
    BoundSettles(ctx, node, bound, inclusive, lower);
  }

  lemma SameTestsChain(a: Fields, b: Fields, c: Fields)
    requires SameTests(a, b) && SameTests(b, c)
    ensures SameTests(a, c)
  {
    forall w | Tested(w) ensures SameAt(a, c, w) { assert SameAt(a, b, w) && SameAt(b, c, w); }
  }

  lemma BoundsTests(ctx: Context, node: Fields)
    ensures SameTests(Bounds(ctx, node), node)
  {
    var lower := Bound(ctx, node, ExclusiveMinimum, Minimum, true);
    BoundTests(ctx, node, ExclusiveMinimum, Minimum, true);
    BoundTests(ctx, lower, ExclusiveMaximum, Maximum, false);
    SameTestsChain(Bounds(ctx, node), lower, node);
  }

  lemma ExampleTests(ctx: Context, node: Fields)
    requires FirstExample(ctx, node).Some?
    ensures SameTests(FirstExample(ctx, node).value, node)
  {
    FirstExampleElsewhere(ctx, node);
  }

  lemma OpenTests(node: Fields)
    ensures SameTests(OpenObject(node), node) && SameTests(node - {UniqueItems}, node)
  {
  }

  lemma ShownTests(ctx: Context, bounded: Fields)
    requires FirstExample(ctx, bounded - {UniqueItems}).Some?
    ensures SameTests(OpenObject(FirstExample(ctx, bounded - {UniqueItems}).value), bounded)
  {
    var rest := bounded - {UniqueItems};
    var shown := FirstExample(ctx, rest).value;
    ExampleTests(ctx, rest);
    OpenTests(bounded);
    OpenTests(shown);
    SameTestsChain(shown, rest, bounded);
    SameTestsChain(OpenObject(shown), shown, bounded);
  }

  lemma PreparedTests(ctx: Context, node: Fields)
    requires Prepared(ctx, node).Some?
    ensures SameTests(Prepared(ctx, node).value, node)
  {
    var typed := TypeList(node).value;
    var listed := ConstEnum(ctx, typed).value;
    ListsTests(ctx, node);
    ListsTests(ctx, typed);
    BoundsTests(ctx, listed);
    ShownTests(ctx, Bounds(ctx, listed));
  }

  lemma PreparedOwn(ctx: Context, judge: Judge, node: Fields, v: Value)
    requires Lawful(ctx) && Prepared(ctx, node).Some?
    ensures Own(ctx, judge, Prepared(ctx, node).value, v) <==> Own(ctx, judge, node, v)
  {
    PreparedMeaning(ctx, node, v, judge.integral(v));
    PreparedTests(ctx, node);
    SameTestsPass(judge, Prepared(ctx, node).value, node, v);
    PreparedNull(ctx, node);
  }

  // ----- completing a node -----

  /** Both ask the same of values other than null. */
  ghost predicate SameOwn(a: Fields, b: Fields) {
    && SameAt(a, b, Type) && SameAt(a, b, Const) && SameAt(a, b, Enum) && SameLower(a, b) && SameUpper(a, b)
    && SameAt(a, b, IntOrString) && SameTests(a, b)
  }

  lemma SameOwnPasses(ctx: Context, judge: Judge, a: Fields, b: Fields, v: Value)
    requires SameOwn(a, b) && !v.Null?
    ensures Own(ctx, judge, a, v) <==> Own(ctx, judge, b, v)
  {
    SameTestsPass(judge, a, b, v);
  }

  lemma WholeOwn(p: Fields, children: Fields)
    requires children.Keys <= {Properties, Items, AdditionalProperties}
    ensures SameOwn(p + children, p)
  {
  }

  lemma AddedOwn(node: Fields, k: Word, x: Value)
    requires k == AnyOf || k == Nullable || k == PreserveUnknown
    ensures SameOwn(node[k := x], node)
  {
  }

  lemma SameOwnChain(a: Fields, b: Fields, c: Fields)
    requires SameOwn(a, b) && SameOwn(b, c)
    ensures SameOwn(a, c)
  {
    SameTestsChain(a, b, c);
  }

  lemma CompletedOwn(ctx: Context, whole: Fields)
    requires Completed(ctx, whole).Some?
    ensures SameOwn(Completed(ctx, whole).value, whole)
  {
    var open := whole[PreserveUnknown := YES];
    var filled := if Untyped(ctx, whole) then open[Nullable := YES] else whole;
    AddedOwn(whole, PreserveUnknown, YES);
    AddedOwn(open, Nullable, YES);
    AddedOwn(filled, AnyOf, INT_OR_STRING);
    SameOwnChain(open[Nullable := YES], open, whole);
    SameOwnChain(filled[AnyOf := INT_OR_STRING], filled, whole);
  }

  /** Nullability and the marker are all that `Marked` and `Finally` change. */
  lemma MarkedOwn(node: Fields, nullable: bool)
    ensures SameOwn(Finally(node, nullable), node)
    ensures SameOwn(Marked(node, nullable), (node - {AnyOf})[IntOrString := YES])
  {
  }

  // ----- children -----

  /** The document embeds no resource and has no exclusive flag without its bound. */
  ghost predicate Clean(ctx: Context, s: Value) { Free(ctx, s, Uses(EmbeddedResource)) && Free(ctx, s, LonelyFlag) }

  /** No union has beside it, at any depth of what is merged uncompiled, an exclusive bound that
      equals the flag. */
  ghost predicate Clear(ctx: Context, s: Value, refs: set<string>)
    decreases |ctx.definitions.Keys - refs|, s, 1
  {
    s.Dict? ==>
      if Ref in s.fields then
        match Behind(ctx, s.fields, refs)
        case None => true
        case Some(e) => Fewer(ctx.definitions.Keys, refs, e.name); Clear(ctx, Dict(e.fields), refs + {e.name})
      else
        && ClearFields(ctx, s, refs)
        && (Items in s.fields ==> Clear(ctx, s.fields[Items], refs))
        && (AdditionalProperties in s.fields ==> Clear(ctx, s.fields[AdditionalProperties], refs))
        && (Redex(s.fields) && s.fields[AnyOf].Arr? ==>
              && (forall x <- s.fields[AnyOf].items :: Clear(ctx, x, refs))
              && (Type !in s.fields && UnionOf(s.fields[AnyOf]).Single? ==>
                    Free(ctx, Dict(s.fields - {AnyOf}), TrueBound)))
  }

  ghost predicate ClearFields(ctx: Context, s: Value, refs: set<string>)
    requires s.Dict?
    decreases |ctx.definitions.Keys - refs|, s, 0
  {
    Properties in s.fields && s.fields[Properties].Dict? ==>
      forall k <- s.fields[Properties].fields :: Clear(ctx, s.fields[Properties].fields[k], refs)
  }

  lemma ClearField(ctx: Context, s: Value, refs: set<string>, k: Word)
    requires s.Dict? && Ref !in s.fields && Clear(ctx, s, refs)
    requires Properties in s.fields && s.fields[Properties].Dict? && k in s.fields[Properties].fields
    ensures Clear(ctx, s.fields[Properties].fields[k], refs)
  {
    assert ClearFields(ctx, s, refs);
  }

  /** A compiled schema has no union left, and no bounds but flags. */
  lemma {:induction false} NormalClear(ctx: Context, s: Value, refs: set<string>)
    requires Normal(ctx, s)
    ensures Clear(ctx, s, refs)
    decreases s
  {
    ShapeCompiled(ctx, s.fields);
    if Properties in s.fields {
      forall k <- s.fields[Properties].fields ensures Clear(ctx, s.fields[Properties].fields[k], refs) {
        NormalField(ctx, s, k);
        NormalClear(ctx, s.fields[Properties].fields[k], refs);
      }
    }
    if Items in s.fields { NormalClear(ctx, s.fields[Items], refs); }
    if Lookup(s.fields, AdditionalProperties).Dict? { NormalClear(ctx, s.fields[AdditionalProperties], refs); }
  }

  lemma {:induction false} NormalFlags(ctx: Context, s: Value)
    requires Normal(ctx, s)
    ensures Free(ctx, s, TrueBound)
    decreases s
  {
    ShapeCompiled(ctx, s.fields);
    if Properties in s.fields {
      forall k <- s.fields[Properties].fields ensures Free(ctx, s.fields[Properties].fields[k], TrueBound) {
        NormalField(ctx, s, k);
        NormalFlags(ctx, s.fields[Properties].fields[k]);
      }
      assert FreeFields(ctx, s.fields[Properties], TrueBound);
    }
    if Items in s.fields { NormalFlags(ctx, s.fields[Items]); }
    if Lookup(s.fields, AdditionalProperties).Dict? { NormalFlags(ctx, s.fields[AdditionalProperties]); }
    assert FreeBelow(ctx, s, AnyOf, TrueBound);
  }

  /** Nodes without unions are joined into one that is clear. */
  lemma ClearUnion(ctx: Context, a: Fields, b: Fields, nullable: bool, refs: set<string>)
    requires Resolved(ctx, a) && Resolved(ctx, b) && Clear(ctx, Dict(a), refs) && Clear(ctx, Dict(b), refs)
    requires Resolved(ctx, Finally(a + b, nullable))
    ensures Clear(ctx, Dict(Finally(a + b, nullable)), refs)
  {
    var m := Finally(a + b, nullable);
    assert SameAt(m, a + b, Properties) && SameAt(m, a + b, Items) && SameAt(m, a + b, AdditionalProperties);
    assert ClearFields(ctx, Dict(a), refs) && ClearFields(ctx, Dict(b), refs);
    assert ClearFields(ctx, Dict(m), refs);
  }

  lemma ClearRest(ctx: Context, node: Fields, refs: set<string>)
    requires Ref !in node && Clear(ctx, Dict(node), refs)
    ensures Clear(ctx, Dict(node - {AnyOf}), refs)
  {
    var rest := node - {AnyOf};
    assert ClearFields(ctx, Dict(node), refs);
    assert SameAt(rest, node, Properties) && SameAt(rest, node, Items) && SameAt(rest, node, AdditionalProperties);
    assert ClearFields(ctx, Dict(rest), refs);
  }

  ghost predicate CleanContext(ctx: Context) { forall name <- ctx.definitions :: Clean(ctx, ctx.definitions[name]) }

  ghost predicate Sound(ctx: Context, judge: Judge) { Equality(ctx) && Fair(ctx, judge) && CleanContext(ctx) }

  lemma CleanField(ctx: Context, node: Fields, k: Word)
    requires Clean(ctx, Dict(node)) && Properties in node && node[Properties].Dict? && k in node[Properties].fields
    ensures Clean(ctx, node[Properties].fields[k])
  {
    FieldFree(ctx, node, k, Uses(EmbeddedResource));
    FieldFree(ctx, node, k, LonelyFlag);
  }

  lemma CleanBelow(ctx: Context, node: Fields, key: Word)
    requires Clean(ctx, Dict(node)) && key in node && (key == Items || key == AdditionalProperties)
    ensures Clean(ctx, node[key])
  {
    BelowFree(ctx, node, key, Uses(EmbeddedResource));
    BelowFree(ctx, node, key, LonelyFlag);
  }

  /** The properties, converted one by one. */
  lemma {:induction false} FieldsMean(ctx: Context, judge: Judge, raw: Value, refs: set<string>, again: set<string>,
                                      r: Value, v: Value)
    requires Sound(ctx, judge) && Clean(ctx, raw) && Clear(ctx, raw, refs) && raw.Dict? && Ref !in raw.fields && r.Dict?
    requires Properties in raw.fields && raw.fields[Properties].Dict? && ConvertFields(ctx, raw, refs, false).Some?
    requires Properties in r.fields && r.fields[Properties] == Dict(ConvertFields(ctx, raw, refs, false).value)
    ensures FieldsFit(ctx, judge, r, again, v) <==> FieldsFit(ctx, judge, raw, refs, v)
    ensures Known(r.fields) == Known(raw.fields)
    decreases |ctx.definitions.Keys - refs|, Rank(raw), raw, 1
  {
    RankChildren(raw);
    var props, out := raw.fields[Properties].fields, r.fields[Properties].fields;
    assert out.Keys == props.Keys;
    if v.Dict? {
      forall k <- props | k in v.fields
        ensures Fits(ctx, judge, out[k], again, v.fields[k]) <==> Fits(ctx, judge, props[k], refs, v.fields[k])
      {
        assert ConvertField(ctx, raw, refs, false, k) == Some(out[k]);
        CleanField(ctx, raw.fields, k);
        ClearField(ctx, raw, refs, k);
        ConvertMeans(ctx, judge, props[k], refs, again, v.fields[k]);
      }
    }
  }

  lemma {:induction false} ItemsMean(ctx: Context, judge: Judge, raw: Value, refs: set<string>, again: set<string>,
                                     r: Value, v: Value)
    requires Sound(ctx, judge) && Clean(ctx, raw) && Clear(ctx, raw, refs) && raw.Dict? && Ref !in raw.fields && r.Dict?
    requires Items in raw.fields && Convert(ctx, raw.fields[Items], refs).Some?
    requires Items in r.fields && r.fields[Items] == Dict(Convert(ctx, raw.fields[Items], refs).value)
    ensures ItemsFit(ctx, judge, r, again, v) <==> ItemsFit(ctx, judge, raw, refs, v)
    decreases |ctx.definitions.Keys - refs|, Rank(raw), raw, 1
  {
    RankChildren(raw);
    CleanBelow(ctx, raw.fields, Items);
    if v.Arr? {
      forall x <- v.items
        ensures Fits(ctx, judge, r.fields[Items], again, x) <==> Fits(ctx, judge, raw.fields[Items], refs, x)
      {
        ConvertMeans(ctx, judge, raw.fields[Items], refs, again, x);
      }
    }
  }

  lemma {:induction false} ExtraMeans(ctx: Context, judge: Judge, raw: Value, refs: set<string>, again: set<string>,
                                      r: Value, v: Value)
    requires Sound(ctx, judge) && Clean(ctx, raw) && Clear(ctx, raw, refs) && raw.Dict? && Ref !in raw.fields
             && r.Dict? && Known(r.fields) == Known(raw.fields)
    requires Lookup(raw.fields, AdditionalProperties).Dict?
             && Convert(ctx, raw.fields[AdditionalProperties], refs).Some?
    requires AdditionalProperties in r.fields
    requires r.fields[AdditionalProperties] == Dict(Convert(ctx, raw.fields[AdditionalProperties], refs).value)
    ensures ExtraFits(ctx, judge, r, again, v) <==> ExtraFits(ctx, judge, raw, refs, v)
    decreases |ctx.definitions.Keys - refs|, Rank(raw), raw, 1
  {
    RankChildren(raw);
    CleanBelow(ctx, raw.fields, AdditionalProperties);
    var s, t := raw.fields[AdditionalProperties], r.fields[AdditionalProperties];
    if v.Dict? {
      forall k <- v.fields | k !in Known(raw.fields)
        ensures Fits(ctx, judge, t, again, v.fields[k]) <==> Fits(ctx, judge, s, refs, v.fields[k])
      {
        ConvertMeans(ctx, judge, s, refs, again, v.fields[k]);
      }
    }
  }

  /** The node `r` has exactly the converted children of the prepared node `p`. */
  ghost predicate Grown(ctx: Context, raw: Value, p: Fields, refs: set<string>, r: Fields)
    requires raw.Dict? && SameAt(p, raw.fields, Properties) && SameAt(p, raw.fields, Items)
    requires Lookup(p, AdditionalProperties).Dict? <==> Lookup(raw.fields, AdditionalProperties).Dict?
    requires Lookup(p, AdditionalProperties).Dict? ==> SameAt(p, raw.fields, AdditionalProperties)
  {
    && ConvertChildren(ctx, raw, p, refs).Some?
    && var children := ConvertChildren(ctx, raw, p, refs).value;
       && SameAt(r, children, Properties) && SameAt(r, children, Items)
       && (Lookup(p, AdditionalProperties).Dict? ==> SameAt(r, children, AdditionalProperties))
       && (!Lookup(p, AdditionalProperties).Dict? ==> !Lookup(r, AdditionalProperties).Dict?)
  }

  lemma {:induction false} ChildrenMean(ctx: Context, judge: Judge, raw: Value, p: Fields, refs: set<string>,
                                        again: set<string>, r: Fields, v: Value)
    requires Sound(ctx, judge) && Clean(ctx, raw) && Clear(ctx, raw, refs) && raw.Dict? && Ref !in raw.fields
             && !On(ctx, p, EmbeddedResource)
    requires SameAt(p, raw.fields, Properties) && SameAt(p, raw.fields, Items)
    requires Lookup(p, AdditionalProperties).Dict? <==> Lookup(raw.fields, AdditionalProperties).Dict?
    requires Lookup(p, AdditionalProperties).Dict? ==> SameAt(p, raw.fields, AdditionalProperties)
    requires Grown(ctx, raw, p, refs, r)
    ensures FieldsFit(ctx, judge, Dict(r), again, v) <==> FieldsFit(ctx, judge, raw, refs, v)
    ensures ExtraFits(ctx, judge, Dict(r), again, v) <==> ExtraFits(ctx, judge, raw, refs, v)
    ensures ItemsFit(ctx, judge, Dict(r), again, v) <==> ItemsFit(ctx, judge, raw, refs, v)
    decreases |ctx.definitions.Keys - refs|, Rank(raw), raw, 2
  {
    var extra, props, items := ConvertExtra(ctx, raw, p, refs).value, ConvertProps(ctx, raw, p, refs).value,
        ConvertItems(ctx, raw, p, refs).value;
    Joins(extra, props, items);
    assert Properties in p ==> r[Properties] == props[Properties];
    assert Items in p ==> r[Items] == items[Items];
    if Properties in p { FieldsMean(ctx, judge, raw, refs, again, Dict(r), v); }
    if Items in p { ItemsMean(ctx, judge, raw, refs, again, Dict(r), v); }
    if Lookup(p, AdditionalProperties).Dict? { ExtraMeans(ctx, judge, raw, refs, again, Dict(r), v); }
  }

  // ----- a node without references and unions -----

  lemma PreparedExtra(ctx: Context, node: Fields)
    requires Prepared(ctx, node).Some?
    ensures Lookup(Prepared(ctx, node).value, AdditionalProperties).Dict? <==> Lookup(node, AdditionalProperties).Dict?
  {
    var typed := TypeList(node).value;
    var listed := ConstEnum(ctx, typed).value;
    ListsFrame(ctx, node);
    ListsFrame(ctx, typed);
    var lower := Bound(ctx, listed, ExclusiveMinimum, Minimum, true);
    BoundFrame(ctx, listed, ExclusiveMinimum, Minimum, true);
    BoundFrame(ctx, lower, ExclusiveMaximum, Maximum, false);
    var bounded := Bounds(ctx, listed);
    FirstExampleFrame(ctx, bounded - {UniqueItems});
    assert SameAt(bounded - {UniqueItems}, bounded, AdditionalProperties);
  }

  /** What a node asks of a value other than null, with the children of `raw`. */
  ghost predicate Asks(ctx: Context, judge: Judge, raw: Value, node: Fields, refs: set<string>, v: Value)
    requires raw.Dict?
  {
    && Own(ctx, judge, node, v)
    && FieldsFit(ctx, judge, raw, refs, v) && ExtraFits(ctx, judge, raw, refs, v) && ItemsFit(ctx, judge, raw, refs, v)
  }

  lemma CompletedGrown(ctx: Context, p: Fields, children: Fields, r: Fields)
    requires ChildrenOf(p, children) && Completed(ctx, p + children) == Some(r)
    requires !Lookup(p, AdditionalProperties).Bool?
    ensures SameAt(r, children, Properties) && SameAt(r, children, Items)
    ensures Lookup(p, AdditionalProperties).Dict? ==> SameAt(r, children, AdditionalProperties)
    ensures !Lookup(p, AdditionalProperties).Dict? ==> !Lookup(r, AdditionalProperties).Dict?
  {
    CompletedElsewhere(ctx, p + children);
  }

  lemma ResultOwn(ctx: Context, judge: Judge, node: Fields, p: Fields, children: Fields, r: Fields, v: Value)
    requires Lawful(ctx) && Prepared(ctx, node) == Some(p) && ChildrenOf(p, children) && !v.Null?
    requires Completed(ctx, p + children) == Some(r)
    ensures Own(ctx, judge, r, v) <==> Own(ctx, judge, node, v)
  {
    PreparedOwn(ctx, judge, node, v);
    WholeOwn(p, children);
    SameOwnPasses(ctx, judge, p + children, p, v);
    CompletedOwn(ctx, p + children);
    SameOwnPasses(ctx, judge, r, p + children, v);
  }

  /** The marker says again what the flag says. */
  lemma ResultVariants(ctx: Context, judge: Judge, r: Fields, again: set<string>, v: Value)
    requires Shape(ctx, r) && Own(ctx, judge, r, v) && !v.Null?
    ensures VariantFits(ctx, judge, Dict(r), again, v)
  {
    ShapeCompiled(ctx, r);
    MarkerFits(ctx, judge, Dict(r), again, v);
  }

  lemma {:induction false} PlainMeans(ctx: Context, judge: Judge, raw: Value, node: Fields, refs: set<string>,
                                      again: set<string>, v: Value)
    requires Sound(ctx, judge) && Clean(ctx, raw) && Clear(ctx, raw, refs) && raw.Dict? && Ref !in raw.fields
             && SameChildren(raw.fields, node)
    requires EmbeddedResource !in node && Plain(ctx, raw, node, refs).Some? && !v.Null?
    ensures Fits(ctx, judge, Dict(Plain(ctx, raw, node, refs).value), again, v)
            <==> Asks(ctx, judge, raw, node, refs, v)
    decreases |ctx.definitions.Keys - refs|, Rank(raw), raw, 4
  {
    PreparedFrame(ctx, node);
    PreparedPlain(ctx, node);
    PreparedExtra(ctx, node);
    PreparedFree(ctx, node, Uses(EmbeddedResource));
    PlainNormal(ctx, raw, node, refs);
    var p := Prepared(ctx, node).value;
    var children := ConvertChildren(ctx, raw, p, refs).value;
    var r := Plain(ctx, raw, node, refs).value;
    CompletedGrown(ctx, p, children, r);
    ResultOwn(ctx, judge, node, p, children, r, v);
    ChildrenMean(ctx, judge, raw, p, refs, again, r, v);
    PlainFits(ctx, judge, r, again, v);
  }

  lemma PlainFits(ctx: Context, judge: Judge, r: Fields, again: set<string>, v: Value)
    requires Shape(ctx, r) && !v.Null?
    ensures Fits(ctx, judge, Dict(r), again, v) <==> Asks(ctx, judge, Dict(r), r, again, v)
  {
    ShapeCompiled(ctx, r);
    if Own(ctx, judge, r, v) { ResultVariants(ctx, judge, r, again, v); }
  }

  // ----- the rewrite -----

  lemma {:induction false} FitsNull(ctx: Context, judge: Judge, s: Value, refs: set<string>)
    ensures Fits(ctx, judge, s, refs, Null) <==> TakesNull(ctx, s, refs)
    decreases |ctx.definitions.Keys - refs|
  {
    if s.Dict? && Ref in s.fields && Behind(ctx, s.fields, refs).Some? {
      var e := Behind(ctx, s.fields, refs).value;
      Fewer(ctx.definitions.Keys, refs, e.name);
      FitsNull(ctx, judge, Dict(e.fields), refs + {e.name});
    }
  }

  lemma NullMeans(ctx: Context, judge: Judge, raw: Value, refs: set<string>, again: set<string>)
    requires EquallyTrue(ctx) && Convert(ctx, raw, refs).Some?
    ensures Fits(ctx, judge, Dict(Convert(ctx, raw, refs).value), again, Null) <==> Fits(ctx, judge, raw, refs, Null)
  {
    var r := Convert(ctx, raw, refs).value;
    NullExact(ctx, raw, refs);
    ConvertNormal(ctx, raw, refs);
    NormalResolved(ctx, r);
    ResolvedNull(ctx, r, again);
    FitsNull(ctx, judge, raw, refs);
    FitsNull(ctx, judge, Dict(r), again);
  }

  /** Compiling a document keeps which values it accepts. */
  lemma {:induction false} ConvertMeans(ctx: Context, judge: Judge, raw: Value, refs: set<string>, again: set<string>,
                                        v: Value)
    requires Sound(ctx, judge) && Clean(ctx, raw) && Clear(ctx, raw, refs) && Convert(ctx, raw, refs).Some?
    ensures Fits(ctx, judge, Dict(Convert(ctx, raw, refs).value), again, v) <==> Fits(ctx, judge, raw, refs, v)
    decreases |ctx.definitions.Keys - refs|, Rank(raw), raw, 6
  {
    if v.Null? {
      NullMeans(ctx, judge, raw, refs, again);
    } else if Ref in raw.fields {
      var expansion := Expanded(ctx, raw.fields, refs).value;
      Fewer(ctx.definitions.Keys, refs, expansion.name);
      ExpandedBehind(ctx, raw.fields, refs);
      ExpandedClean(ctx, raw.fields, refs);
      ConvertMeans(ctx, judge, Dict(expansion.fields), refs + {expansion.name}, again, v);
    } else if AnyOf in raw.fields {
      UnionMeans(ctx, judge, raw, refs, again, v);
    } else {
      PlainMeans(ctx, judge, raw, raw.fields, refs, again, v);
      FitsAsks(ctx, judge, raw, refs, v);
    }
  }

  lemma FitsAsks(ctx: Context, judge: Judge, s: Value, refs: set<string>, v: Value)
    requires s.Dict? && Ref !in s.fields && !v.Null?
    ensures Fits(ctx, judge, s, refs, v)
            <==> Asks(ctx, judge, s, s.fields, refs, v) && VariantFits(ctx, judge, s, refs, v)
  {
    assert Fits(ctx, judge, s, refs, v) <==> Admits(ctx, judge, s, refs, v);
  }

  lemma ExpandedClean(ctx: Context, node: Fields, refs: set<string>)
    requires CleanContext(ctx) && Clean(ctx, Dict(node)) && Ref in node && Expanded(ctx, node, refs).Some?
    ensures Clean(ctx, Dict(Expanded(ctx, node, refs).value.fields))
  {
    ExpandedFree(ctx, node, refs, Uses(EmbeddedResource));
    ExpandedFree(ctx, node, refs, LonelyFlag);
  }

  lemma {:induction false} UnionMeans(ctx: Context, judge: Judge, raw: Value, refs: set<string>, again: set<string>,
                                      v: Value)
    requires Sound(ctx, judge) && Clean(ctx, raw) && Clear(ctx, raw, refs) && Convert(ctx, raw, refs).Some? && !v.Null?
    requires Ref !in raw.fields && AnyOf in raw.fields
    ensures Fits(ctx, judge, Dict(Convert(ctx, raw, refs).value), again, v) <==> Fits(ctx, judge, raw, refs, v)
    decreases |ctx.definitions.Keys - refs|, Rank(raw), raw, 5
  {
    match UnionOf(raw.fields[AnyOf])
    case Scalars(nullable) =>
      MarkedFrame(raw.fields, nullable);
      PlainMeans(ctx, judge, raw, Marked(raw.fields, nullable), refs, again, v);
      ScalarsAsk(ctx, judge, raw, refs, nullable, v);
    case Single(branch, nullable) => SingleMeans(ctx, judge, raw, refs, again, branch, nullable, v);
  }

  /** A union of integers and strings is the flag that says so. */
  lemma ScalarsAsk(ctx: Context, judge: Judge, raw: Value, refs: set<string>, nullable: bool, v: Value)
    requires raw.Dict? && Ref !in raw.fields && AnyOf in raw.fields && !v.Null?
    requires UnionOf(raw.fields[AnyOf]) == Scalars(nullable)
    ensures Asks(ctx, judge, raw, Marked(raw.fields, nullable), refs, v) <==> Fits(ctx, judge, raw, refs, v)
  {
    ScalarsFit(ctx, judge, raw, refs, nullable, v);
    FlaggedOwn(ctx, judge, raw.fields, nullable, v);
  }

  lemma ScalarsFit(ctx: Context, judge: Judge, raw: Value, refs: set<string>, nullable: bool, v: Value)
    requires raw.Dict? && AnyOf in raw.fields && UnionOf(raw.fields[AnyOf]) == Scalars(nullable) && !v.Null?
    ensures VariantFits(ctx, judge, raw, refs, v) <==> IntegerOrString(judge, v)
  {
    TypedFits(ctx, judge, IntegerType, refs, v);
    TypedFits(ctx, judge, StringType, refs, v);
    ScalarsVary(ctx, judge, raw, refs, nullable, v);
  }

  lemma ScalarsVary(ctx: Context, judge: Judge, raw: Value, refs: set<string>, nullable: bool, v: Value)
    requires raw.Dict? && AnyOf in raw.fields && UnionOf(raw.fields[AnyOf]) == Scalars(nullable)
    ensures VariantFits(ctx, judge, raw, refs, v)
            <==> Fits(ctx, judge, Typed(IntegerType), refs, v) || Fits(ctx, judge, Typed(StringType), refs, v)
  {
    forall x
      ensures x in raw.fields[AnyOf].items && x != Typed(NullType)
              <==> x == Typed(IntegerType) || x == Typed(StringType)
    {
      ScalarVariants(raw.fields[AnyOf], nullable, x);
    }
  }

  lemma FlaggedOwn(ctx: Context, judge: Judge, node: Fields, nullable: bool, v: Value)
    requires !v.Null?
    ensures Own(ctx, judge, Marked(node, nullable), v) <==> Own(ctx, judge, node, v) && IntegerOrString(judge, v)
  {
    var marked := (node - {AnyOf})[IntOrString := YES];
    MarkedOwn(node, nullable);
    SameOwnPasses(ctx, judge, Marked(node, nullable), marked, v);
    FlagOwn(ctx, judge, node, marked, v);
  }

  lemma FlagOwn(ctx: Context, judge: Judge, node: Fields, marked: Fields, v: Value)
    requires marked == (node - {AnyOf})[IntOrString := YES] && !v.Null?
    ensures Own(ctx, judge, marked, v) <==> Own(ctx, judge, node, v) && IntegerOrString(judge, v)
  {
    assert SameTests(marked, node);
    SameTestsPass(judge, marked, node, v);
    assert SameAt(marked, node, Type) && SameAt(marked, node, Const) && SameAt(marked, node, Enum);
    assert SameLower(marked, node) && SameUpper(marked, node);
    if On(ctx, node, IntOrString) { assert On(ctx, marked, IntOrString); }
  }

  // ----- a union with one branch -----

  /** A node that compiles has either kind of properties, and no other than objects of them. */
  lemma ConvertedOpen(ctx: Context, m: Fields, refs: set<string>)
    requires Resolved(ctx, m) && Convert(ctx, Dict(m), refs).Some?
    ensures Properties in m ==> m[Properties].Dict?
    ensures Lookup(m, AdditionalProperties).Dict? ==> Known(m) == {}
  {
    var node := if AnyOf in m then Marked(m, false) else m;
    if AnyOf in m { MarkerIsScalars(); }
    MarkedFrame(m, false);
    PlainOpen(ctx, Dict(m), node, refs);
  }

  lemma PlainOpen(ctx: Context, raw: Value, node: Fields, refs: set<string>)
    requires raw.Dict? && SameChildren(raw.fields, node) && Plain(ctx, raw, node, refs).Some?
    ensures Properties in node ==> node[Properties].Dict?
    ensures Lookup(node, AdditionalProperties).Dict? ==> Known(node) == {}
  {
    PreparedFrame(ctx, node);
    PreparedExtra(ctx, node);
    PreparedPlain(ctx, node);
    ChildrenOpen(ctx, raw, Prepared(ctx, node).value, refs);
  }

  lemma ChildrenOpen(ctx: Context, raw: Value, p: Fields, refs: set<string>)
    requires raw.Dict? && SameAt(p, raw.fields, Properties) && SameAt(p, raw.fields, Items)
    requires Lookup(p, AdditionalProperties).Dict? ==> SameAt(p, raw.fields, AdditionalProperties)
    requires ConvertChildren(ctx, raw, p, refs).Some?
    ensures Properties in p ==> p[Properties].Dict?
    ensures Lookup(p, AdditionalProperties).Dict? ==> Known(p) == {}
  {
    assert ConvertProps(ctx, raw, p, refs).Some?;
    if Lookup(p, AdditionalProperties).Dict? {
      assert ConvertExtra(ctx, raw, p, refs).Some?;
      assert !Truthy(ctx, Lookup(p, Properties));
    }
  }

  lemma FinallyAdmits(ctx: Context, judge: Judge, m: Fields, nullable: bool, refs: set<string>, v: Value)
    requires Resolved(ctx, m) && !v.Null?
    ensures Admits(ctx, judge, Dict(Finally(m, nullable)), refs, v) <==> Admits(ctx, judge, Dict(m), refs, v)
  {
    var f := Finally(m, nullable);
    MarkedOwn(m, nullable);
    SameOwnPasses(ctx, judge, f, m, v);
    SameFit(ctx, judge, f, m, refs, v);
    MarkerFits(ctx, judge, Dict(m), refs, v);
    MarkerFits(ctx, judge, Dict(f), refs, v);
  }

  /** The branch and the rest of a union, apart. */
  lemma SplitFits(ctx: Context, judge: Judge, raw: Value, refs: set<string>, branch: Value, nullable: bool, v: Value)
    requires raw.Dict? && Ref !in raw.fields && AnyOf in raw.fields && !v.Null?
    requires UnionOf(raw.fields[AnyOf]) == Single(branch, nullable)
    ensures Fits(ctx, judge, raw, refs, v)
            <==> Fits(ctx, judge, branch, refs, v) && Fits(ctx, judge, Dict(raw.fields - {AnyOf}), refs, v)
  {
    var rest := raw.fields - {AnyOf};
    forall x ensures x in raw.fields[AnyOf].items && x != Typed(NullType) <==> x == branch {
      SingleVariant(raw.fields[AnyOf], branch, nullable, x);
    }
    assert VariantFits(ctx, judge, raw, refs, v) <==> Fits(ctx, judge, branch, refs, v);
    RestOwn(raw.fields);
    SameOwnPasses(ctx, judge, rest, raw.fields, v);
    SameFit(ctx, judge, rest, raw.fields, refs, v);
    FitsAsks(ctx, judge, raw, refs, v);
    FitsAsks(ctx, judge, Dict(rest), refs, v);
  }

  lemma RestOwn(node: Fields)
    ensures SameOwn(node - {AnyOf}, node)
  {
  }

  /** The branch and the rest merge into a node that asks for both. */
  lemma JoinedFits(ctx: Context, judge: Judge, left: Fields, right: Fields, nullable: bool, refs: set<string>, v: Value)
    requires Merging(ctx, judge, left, right) && PlainType(right) && Resolved(ctx, right) && !v.Null?
    requires Convert(ctx, Dict(Finally(left + right, nullable)), refs).Some?
    ensures Fits(ctx, judge, Dict(Finally(left + right, nullable)), refs, v)
            <==> Fits(ctx, judge, Dict(left), refs, v) && Fits(ctx, judge, Dict(right), refs, v)
  {
    ShapeCompiled(ctx, left);
    MergedResolved(ctx, left, right, nullable);
    JoinedOpen(ctx, left + right, nullable, refs);
    JoinAdmits(ctx, judge, left, right, refs, v);
    FinallyAdmits(ctx, judge, left + right, nullable, refs, v);
  }

  lemma JoinedOpen(ctx: Context, m: Fields, nullable: bool, refs: set<string>)
    requires Resolved(ctx, Finally(m, nullable)) && Convert(ctx, Dict(Finally(m, nullable)), refs).Some?
    ensures Properties in m ==> m[Properties].Dict?
    ensures Lookup(m, AdditionalProperties).Dict? ==> Known(m) == {}
  {
    var f := Finally(m, nullable);
    ConvertedOpen(ctx, f, refs);
    assert SameAt(f, m, Properties) && SameAt(f, m, AdditionalProperties);
  }

  lemma MergedResolved(ctx: Context, left: Fields, right: Fields, nullable: bool)
    requires EquallyTrue(ctx) && Merged(ctx, left, right).Some? && Resolved(ctx, left) && Resolved(ctx, right)
    ensures Resolved(ctx, left + right) && Resolved(ctx, Finally(left + right, nullable))
  {
    MergedOn(ctx, left, right, IntOrString);
  }

  lemma MergedClear(ctx: Context, left: Fields, right: Fields, nullable: bool, refs: set<string>)
    requires EquallyTrue(ctx) && Merged(ctx, left, right).Some? && Resolved(ctx, right)
    requires Normal(ctx, Dict(left)) && Clear(ctx, Dict(right), refs)
    ensures Clear(ctx, Dict(Finally(left + right, nullable)), refs)
  {
    NormalClear(ctx, Dict(left), refs);
    ShapeCompiled(ctx, left);
    MergedResolved(ctx, left, right, nullable);
    ClearUnion(ctx, left, right, nullable, refs);
  }

  lemma MergedClean(ctx: Context, left: Fields, right: Fields, nullable: bool)
    requires Clean(ctx, Dict(left)) && Clean(ctx, Dict(right))
    ensures Clean(ctx, Dict(Finally(left + right, nullable)))
  {
    FreeUnion(ctx, left, right, Uses(EmbeddedResource));
    FreeUnion(ctx, left, right, LonelyFlag);
    FreeFinally(ctx, left + right, nullable, Uses(EmbeddedResource));
    FreeFinally(ctx, left + right, nullable, LonelyFlag);
  }

  lemma ConvertClean(ctx: Context, raw: Value, refs: set<string>)
    requires CleanContext(ctx) && Clean(ctx, raw) && Convert(ctx, raw, refs).Some?
    ensures Clean(ctx, Dict(Convert(ctx, raw, refs).value)) && Normal(ctx, Dict(Convert(ctx, raw, refs).value))
  {
    ConvertFree(ctx, raw, refs, Uses(EmbeddedResource));
    ConvertFree(ctx, raw, refs, LonelyFlag);
    ConvertNormal(ctx, raw, refs);
  }

  lemma BranchClean(ctx: Context, node: Fields, branch: Value)
    requires Clean(ctx, Dict(node)) && Redex(node) && node[AnyOf].Arr? && branch in node[AnyOf].items
    ensures Clean(ctx, branch) && Clean(ctx, Dict(node - {AnyOf}))
  {
    assert FreeBelow(ctx, Dict(node), AnyOf, Uses(EmbeddedResource));
    assert FreeBelow(ctx, Dict(node), AnyOf, LonelyFlag);
    FreeWithout(ctx, node, AnyOf, Uses(EmbeddedResource));
    FreeWithout(ctx, node, AnyOf, LonelyFlag);
  }

  /** The rest of a union as it is merged: compiled if it has a type, as it is otherwise. */
  lemma {:induction false} RestMeans(ctx: Context, judge: Judge, raw: Value, rest: Fields, refs: set<string>,
                                     right: Fields, v: Value)
    requires Sound(ctx, judge) && raw.Dict? && Redex(raw.fields) && Ref !in raw.fields && rest == raw.fields - {AnyOf}
    requires Clean(ctx, Dict(rest)) && Clear(ctx, Dict(rest), refs)
    requires Type in rest || Free(ctx, Dict(rest), TrueBound)
    requires Some(right) == if Type in rest then Convert(ctx, Dict(rest), refs) else Some(rest)
    ensures Clean(ctx, Dict(right)) && PlainType(right) && Resolved(ctx, right)
    ensures Clear(ctx, Dict(right), refs) && Free(ctx, Dict(right), TrueBound)
    ensures Fits(ctx, judge, Dict(right), refs, v) <==> Fits(ctx, judge, Dict(rest), refs, v)
    decreases |ctx.definitions.Keys - refs|, Rank(raw), raw, 1
  {
    RankRest(raw.fields);
    if Type in rest {
      ConvertMeans(ctx, judge, Dict(rest), refs, refs, v);
      ConvertClean(ctx, Dict(rest), refs);
      ShapeCompiled(ctx, right);
      NormalClear(ctx, Dict(right), refs);
      NormalFlags(ctx, Dict(right));
    }
  }

  lemma {:induction false} SingleMeans(ctx: Context, judge: Judge, raw: Value, refs: set<string>, again: set<string>,
                                       branch: Value, nullable: bool, v: Value)
    requires Sound(ctx, judge) && Clean(ctx, raw) && Clear(ctx, raw, refs) && raw.Dict? && Redex(raw.fields)
             && Ref !in raw.fields && !v.Null?
    requires UnionOf(raw.fields[AnyOf]) == Single(branch, nullable)
    requires ConvertSingle(ctx, raw, refs, branch, nullable).Some?
    ensures Fits(ctx, judge, Dict(ConvertSingle(ctx, raw, refs, branch, nullable).value), again, v)
            <==> Fits(ctx, judge, raw, refs, v)
    decreases |ctx.definitions.Keys - refs|, Rank(raw), raw, 3
  {
    var rest := raw.fields - {AnyOf};
    BranchRank(raw, branch);
    RankRest(raw.fields);
    BranchClean(ctx, raw.fields, branch);
    ClearRest(ctx, raw.fields, refs);
    var left := Convert(ctx, branch, refs).value;
    var right := if Type in rest then Convert(ctx, Dict(rest), refs).value else rest;
    ConvertMeans(ctx, judge, branch, refs, refs, v);
    ConvertClean(ctx, branch, refs);
    RestMeans(ctx, judge, raw, rest, refs, right, v);
    SingleRank(raw, left, right, nullable);
    MergedClean(ctx, left, right, nullable);
    MergedClear(ctx, left, right, nullable, refs);
    ConvertMeans(ctx, judge, Dict(Finally(left + right, nullable)), refs, again, v);
    JoinedFits(ctx, judge, left, right, nullable, refs, v);
    SplitFits(ctx, judge, raw, refs, branch, nullable, v);
  }
}
