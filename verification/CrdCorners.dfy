/** What compiling makes of an optional value, and documents whose meaning it changes. */
module CrdCorners {
  import opened Wrappers
  import opened Crd
  import opened CrdConvert
  import opened CrdProofs
  import opened CrdStable
  import opened CrdMeaning
  import opened CrdAccept
  import opened CrdMerge
  import opened CrdPreserve

  // ----- leaves -----

  predicate LeafKey(w: Word) { w.Type? || w.Minimum? || w.ExclusiveMinimum? || w.Nullable? }

  predicate Leaf(node: Fields) {
    && (forall k <- node :: LeafKey(k)) && Type in node
       && (node[Type] == Str(IntegerType) || node[Type] == Str(StringType))
  }

  lemma BoundLeaf(ctx: Context, node: Fields)
    requires Leaf(node)
    ensures Leaf(Bound(ctx, node, ExclusiveMinimum, Minimum, true))
    ensures Bounds(ctx, node) == Bound(ctx, node, ExclusiveMinimum, Minimum, true)
  {
    assert ExclusiveMaximum !in node;
  }

  lemma LeafPrepared(ctx: Context, node: Fields)
    requires Leaf(node)
    ensures Prepared(ctx, node) == Some(Bounds(ctx, node))
  {
    BoundLeaf(ctx, node);
    var bounded := Bounds(ctx, node);
    assert Const !in node;
    assert UniqueItems !in bounded && Examples !in bounded && AdditionalProperties !in bounded;
    assert bounded - {UniqueItems} == bounded && bounded - {Examples} == bounded;
  }

  lemma LeafCompleted(ctx: Context, node: Fields)
    requires Leaf(node)
    ensures Completed(ctx, node) == Some(node)
  {
    assert IntOrString !in node && PreserveUnknown !in node && EmbeddedResource !in node && MapType !in node;
    assert ListType !in node && ListMapKeys !in node && Validations !in node;
  }

  /** A node without children only has its bound rewritten. */
  lemma LeafConverts(ctx: Context, node: Fields, refs: set<string>)
    requires Leaf(node)
    ensures Convert(ctx, Dict(node), refs) == Some(Bound(ctx, node, ExclusiveMinimum, Minimum, true))
  {
    BoundLeaf(ctx, node);
    LeafPrepared(ctx, node);
    var p := Bounds(ctx, node);
    assert Ref !in node && AnyOf !in node;
    assert Properties !in p && Items !in p && AdditionalProperties !in p;
    assert ConvertChildren(ctx, Dict(node), p, refs) == Some(map[]);
    assert p + map[] == p;
    LeafCompleted(ctx, p);
  }

  // ----- one branch -----

  function Nulls(nullable: bool): seq<Value> { if nullable then [Typed(NullType)] else [] }

  /** A union of one branch, with or without null, and what stands beside it. */
  function Choice(branch: Fields, nullable: bool, rest: Fields): Value {
    Dict(rest[AnyOf := Arr([Dict(branch)] + Nulls(nullable))])
  }

  lemma OneBranch(branch: Fields, nullable: bool)
    requires Leaf(branch)
    ensures UnionOf(Arr([Dict(branch)] + Nulls(nullable))) == Single(Dict(branch), nullable)
  {
    var nulls := Nulls(nullable);
    var variants := [Dict(branch)] + nulls;
    assert Typed(NullType).fields[Type] == Str(NullType);
    assert Dict(branch) != Typed(NullType);
    assert variants[1..] == nulls;
    assert NonNull(nulls) == [] by { if nullable { assert nulls[1..] == []; } }
    assert NonNull(variants) == [Dict(branch)];
  }

  function Lowered(ctx: Context, node: Fields): Fields { Bound(ctx, node, ExclusiveMinimum, Minimum, true) }

  lemma ChoiceConverts(ctx: Context, branch: Fields, nullable: bool, rest: Fields)
    requires Leaf(branch) && Type !in rest && forall k <- rest :: LeafKey(k)
    requires Merged(ctx, Lowered(ctx, branch), rest).Some?
    ensures Convert(ctx, Choice(branch, nullable, rest), {})
            == Some(Lowered(ctx, Finally(Lowered(ctx, branch) + rest, nullable)))
  {
    var raw := Choice(branch, nullable, rest);
    LeafConverts(ctx, branch, {});
    BoundLeaf(ctx, branch);
    ChoiceIsSingle(ctx, branch, nullable, rest);
    var m := Finally(Lowered(ctx, branch) + rest, nullable);
    assert Leaf(m);
    LeafConverts(ctx, m, {});
    assert ConvertSingle(ctx, raw, {}, Dict(branch), nullable) == Convert(ctx, Dict(m), {});
  }

  lemma ChoiceIsSingle(ctx: Context, branch: Fields, nullable: bool, rest: Fields)
    requires Leaf(branch) && Ref !in rest && AnyOf !in rest
    ensures var raw := Choice(branch, nullable, rest);
            && raw.fields - {AnyOf} == rest && Redex(raw.fields) && Dict(branch) in raw.fields[AnyOf].items
            && Convert(ctx, raw, {}) == ConvertSingle(ctx, raw, {}, Dict(branch), nullable)
  {
    OneBranch(branch, nullable);
    assert Choice(branch, nullable, rest).fields - {AnyOf} == rest;
  }

  const STRING: Fields := map[Type := Str(StringType)]
  const NOTHING: Fields := map[]

  /** An optional string compiles to a nullable string. */
  lemma OptionalString(ctx: Context)
    ensures Convert(ctx, Choice(STRING, true, NOTHING), {}) == Some(STRING[Nullable := YES])
  {
    assert Lowered(ctx, STRING) == STRING && STRING + NOTHING == STRING;
    ChoiceConverts(ctx, STRING, true, NOTHING);
    var wide := Finally(Lowered(ctx, STRING) + NOTHING, true);
    assert wide == STRING[Nullable := YES];
    assert ExclusiveMinimum !in wide;
    assert Lookup(wide, ExclusiveMinimum) == Null;
    assert Lowered(ctx, wide) == wide;
    assert Convert(ctx, Choice(STRING, true, NOTHING), {}) == Some(wide);
  }

  // ----- exclusive bounds beside a union -----

  const FIVE := Num("5")
  const ONE := Num("1")
  const ABOVE_FIVE: Fields := map[Type := Str(IntegerType), Minimum := FIVE, ExclusiveMinimum := YES]
  const FROM_FIVE: Fields := map[Type := Str(IntegerType), Minimum := FIVE]

  lemma LeafFits(ctx: Context, judge: Judge, node: Fields, refs: set<string>, v: Value)
    requires Leaf(node) && node[Type] == Str(IntegerType) && v.Num? && judge.integral(v)
    ensures Fits(ctx, judge, Dict(node), refs, v) <==> LowerOk(ctx, node, v)
  {
    assert Ref !in node && AnyOf !in node && Properties !in node && Items !in node && AdditionalProperties !in node;
    assert Const !in node && Enum !in node && Maximum !in node && ExclusiveMaximum !in node && IntOrString !in node;
    assert Tests(judge, node, v) by { assert forall w <- node :: !Tested(w); }
    assert UpperOk(ctx, node, v) && ListedOk(ctx, node, v) && TypeOk(node, v, true);
    assert Own(ctx, judge, node, v) <==> LowerOk(ctx, node, v);
    FitsAsks(ctx, judge, Dict(node), refs, v);
  }

  const BESIDE_ONE := Choice(map[Type := Str(IntegerType), ExclusiveMinimum := FIVE], false,
                             map[ExclusiveMinimum := ONE])

  lemma BoundIsLost(ctx: Context, merged: Fields)
    requires merged == map[Type := Str(IntegerType), Minimum := FIVE, ExclusiveMinimum := ONE] && ctx.above(FIVE, ONE)
    ensures Lowered(ctx, merged) == FROM_FIVE
  {
    assert merged[Minimum] == FIVE && merged[ExclusiveMinimum] == ONE;
    assert merged - {ExclusiveMinimum} == FROM_FIVE;
  }

  lemma OneConverts(ctx: Context)
    requires ctx.same(YES, ONE) && ctx.above(FIVE, ONE)
    ensures Convert(ctx, BESIDE_ONE, {}) == Some(FROM_FIVE)
  {
    var branch: Fields, rest: Fields := map[Type := Str(IntegerType), ExclusiveMinimum := FIVE],
        map[ExclusiveMinimum := ONE];
    assert Lowered(ctx, branch) == ABOVE_FIVE;
    OneMerges(ctx, rest);
    ChoiceConverts(ctx, branch, false, rest);
    BoundIsLost(ctx, ABOVE_FIVE + rest);
  }

  lemma OneMerges(ctx: Context, rest: Fields)
    requires rest == map[ExclusiveMinimum := ONE] && ctx.same(YES, ONE)
    ensures Merged(ctx, ABOVE_FIVE, rest) == Some(ABOVE_FIVE + rest)
    ensures ABOVE_FIVE + rest == map[Type := Str(IntegerType), Minimum := FIVE, ExclusiveMinimum := ONE]
  {
    assert forall k <- rest :: !Conflict(ctx, ABOVE_FIVE, rest, k);
  }

  /** Where 1 equals true, an exclusive bound of 1 is taken for the flag of another bound, which is
      then lost: 5 is accepted although only more than 5 was. */
  lemma TrueIsOne(ctx: Context, judge: Judge)
    requires Equality(ctx) && ctx.same(YES, ONE) && ctx.above(FIVE, ONE) && judge.integral(FIVE)
    ensures Convert(ctx, BESIDE_ONE, {}) == Some(FROM_FIVE)
    ensures Fits(ctx, judge, Dict(FROM_FIVE), {}, FIVE) && !Fits(ctx, judge, BESIDE_ONE, {}, FIVE)
  {
    var branch: Fields := map[Type := Str(IntegerType), ExclusiveMinimum := FIVE];
    OneConverts(ctx);
    NotAboveItself(ctx, FIVE);
    LeafFits(ctx, judge, FROM_FIVE, {}, FIVE);
    LeafFits(ctx, judge, branch, {}, FIVE);
    ChoiceFits(ctx, judge, branch, map[ExclusiveMinimum := ONE], FIVE);
  }

  lemma NotAboveItself(ctx: Context, v: Value)
    requires Lawful(ctx)
    ensures !ctx.above(v, v)
  {
  }

  /** A union accepts only what its branch accepts. */
  lemma ChoiceFits(ctx: Context, judge: Judge, branch: Fields, rest: Fields, v: Value)
    requires Leaf(branch) && Ref !in rest && !v.Null?
    ensures Fits(ctx, judge, Choice(branch, false, rest), {}, v) ==> Fits(ctx, judge, Dict(branch), {}, v)
  {
    var raw := Choice(branch, false, rest);
    FitsAsks(ctx, judge, raw, {}, v);
    assert raw.fields[AnyOf].items == [Dict(branch)];
    if Fits(ctx, judge, raw, {}, v) {
      var x :| x in raw.fields[AnyOf].items && Fits(ctx, judge, x, {}, v);
    }
  }

  /** A flag beside the union is taken for one beside the bound of the branch: 5 is no longer
      accepted although it was. */
  lemma FlagComesAlive(ctx: Context, judge: Judge)
    requires Equality(ctx) && judge.integral(FIVE)
    ensures var raw := Choice(FROM_FIVE, false, map[ExclusiveMinimum := YES]);
            && Convert(ctx, raw, {}) == Some(ABOVE_FIVE)
            && !Fits(ctx, judge, Dict(ABOVE_FIVE), {}, FIVE) && Fits(ctx, judge, raw, {}, FIVE)
  {
    var rest: Fields := map[ExclusiveMinimum := YES];
    assert Lowered(ctx, FROM_FIVE) == FROM_FIVE;
    assert forall k <- rest :: !Conflict(ctx, FROM_FIVE, rest, k);
    ChoiceConverts(ctx, FROM_FIVE, false, rest);
    assert FROM_FIVE + rest == ABOVE_FIVE;
    assert Lowered(ctx, ABOVE_FIVE) == ABOVE_FIVE;
    NotAboveItself(ctx, FIVE);
    LeafFits(ctx, judge, ABOVE_FIVE, {}, FIVE);
    LeafFits(ctx, judge, FROM_FIVE, {}, FIVE);
    FlagFits(ctx, judge, rest);
  }

  lemma FlagFits(ctx: Context, judge: Judge, rest: Fields)
    requires rest == map[ExclusiveMinimum := YES] && Fits(ctx, judge, Dict(FROM_FIVE), {}, FIVE)
    ensures Fits(ctx, judge, Choice(FROM_FIVE, false, rest), {}, FIVE)
  {
    var raw := Choice(FROM_FIVE, false, rest);
    var node := raw.fields;
    assert Dict(FROM_FIVE) in node[AnyOf].items && Dict(FROM_FIVE) != Typed(NullType) by {
      assert FROM_FIVE[Type] != Str(NullType) && Typed(NullType).fields[Type] == Str(NullType);
    }
    FlagOwn(ctx, judge, node, FIVE);
    FitsAsks(ctx, judge, raw, {}, FIVE);
  }

  /** A flag alone asks nothing. */
  lemma FlagOwn(ctx: Context, judge: Judge, node: Fields, v: Value)
    requires node.Keys == {AnyOf, ExclusiveMinimum} && node[ExclusiveMinimum] == YES && v.Num?
    ensures Own(ctx, judge, node, v)
    ensures Ref !in node && Properties !in node && Items !in node && AdditionalProperties !in node
  {
    assert Minimum !in node && Maximum !in node && ExclusiveMaximum !in node && Const !in node && Enum !in node;
    assert Type !in node && IntOrString !in node;
    assert forall w <- node :: !Tested(w);
  }

  // ----- embedded resources -----

  /** An embedded resource with the given metadata. */
  function Embedding(metadata: Value): Fields {
    map[Type := Str(ObjectType), EmbeddedResource := YES, Properties := Dict(map[Metadata := metadata])]
  }

  lemma EmbeddingFields(ctx: Context)
    ensures ConvertFields(ctx, Dict(Embedding(Typed(StringType))), {}, true) == Some(OPEN_METADATA.fields)
  {
    var raw := Dict(Embedding(Typed(StringType)));
    assert FieldNames(raw, true) == OPEN_METADATA.fields.Keys;
    AllConverted(ctx, raw, {}, true, OPEN_METADATA.fields);
  }

  lemma EmbeddingConverts(ctx: Context)
    ensures Convert(ctx, Dict(Embedding(Typed(StringType))), {}) == Some(Embedding(Typed(ObjectType)))
  {
    EmbeddingFields(ctx);
    EmbeddingSteps(ctx, Embedding(Typed(StringType)), map[Properties := OPEN_METADATA]);
  }

  lemma EmbeddingSteps(ctx: Context, node: Fields, children: Fields)
    requires node == Embedding(Typed(StringType)) && children == map[Properties := OPEN_METADATA]
    requires ConvertFields(ctx, Dict(node), {}, true) == Some(OPEN_METADATA.fields)
    ensures Convert(ctx, Dict(node), {}) == Some(Embedding(Typed(ObjectType)))
  {
    ObjectReady(ctx, node);
    EmbeddingChildren(ctx, node);
    ConvertPrepared(ctx, Dict(node), children);
    EmbeddingGrown(node);
    EmbeddingCompleted(ctx, node + children);
  }

  lemma EmbeddingGrown(node: Fields)
    requires node == Embedding(Typed(StringType))
    ensures node + map[Properties := OPEN_METADATA] == Embedding(Typed(ObjectType))
  {
  }

  lemma EmbeddingChildren(ctx: Context, node: Fields)
    requires node == Embedding(Typed(StringType))
    requires ConvertFields(ctx, Dict(node), {}, true) == Some(OPEN_METADATA.fields)
    ensures ConvertChildren(ctx, Dict(node), node, {}) == Some(map[Properties := OPEN_METADATA])
  {
    assert On(ctx, node, EmbeddedResource) && Items !in node && AdditionalProperties !in node;
    var props: Fields := map[Properties := OPEN_METADATA];
    assert ConvertProps(ctx, Dict(node), node, {}) == Some(props);
    assert map[] + props + map[] == props;
  }

  lemma EmbeddingCompleted(ctx: Context, whole: Fields)
    requires whole == Embedding(Typed(ObjectType))
    ensures Completed(ctx, whole) == Some(whole)
  {
    assert whole[Type] == Str(ObjectType) && IntOrString !in whole && ListType !in whole && ListMapKeys !in whole;
    assert MapType !in whole && Validations !in whole && PreserveUnknown !in whole;
    assert whole[EmbeddedResource] == YES;
    assert !Untyped(ctx, whole);
    assert Extensions(ctx, whole);
    assert !On(ctx, whole, IntOrString);
  }

  const NAMED := Dict(map[Metadata := Str(Other("x"))])

  lemma EmbeddingOwn(ctx: Context, judge: Judge, node: Fields, v: Value)
    requires node.Keys == {Type, EmbeddedResource, Properties} && node[Type] == Str(ObjectType) && v.Dict?
    ensures Own(ctx, judge, node, v)
    ensures Ref !in node && AdditionalProperties !in node && Items !in node && AnyOf !in node
  {
    assert IntOrString !in node && Const !in node && Enum !in node;
    assert forall w <- node :: !Tested(w);
  }

  lemma EmbeddingFits(ctx: Context, judge: Judge, t: Word)
    requires t == StringType || t == ObjectType
    ensures Fits(ctx, judge, Dict(Embedding(Typed(t))), {}, NAMED) <==> t == StringType
  {
    var node := Embedding(Typed(t));
    EmbeddingOwn(ctx, judge, node, NAMED);
    FitsAsks(ctx, judge, Dict(node), {}, NAMED);
    TypedFits(ctx, judge, t, {}, Str(Other("x")));
    assert node[Properties].fields[Metadata] == Typed(t) && NAMED.fields[Metadata] == Str(Other("x"));
  }

  /** The schema given for the metadata of an embedded resource is replaced. */
  lemma MetadataReplaced(ctx: Context, judge: Judge)
    ensures Convert(ctx, Dict(Embedding(Typed(StringType))), {}) == Some(Embedding(Typed(ObjectType)))
    ensures Fits(ctx, judge, Dict(Embedding(Typed(StringType))), {}, NAMED)
    ensures !Fits(ctx, judge, Dict(Embedding(Typed(ObjectType))), {}, NAMED)
  {
    EmbeddingConverts(ctx);
    EmbeddingFits(ctx, judge, StringType);
    EmbeddingFits(ctx, judge, ObjectType);
  }
}
