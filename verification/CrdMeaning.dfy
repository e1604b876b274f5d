/** Rewriting the keywords of one node keeps their meaning: type lists, const, enum and exclusive
    bounds accept the same values before and after, under every lawful equality and order. */
module CrdMeaning {
  import opened Wrappers
  import opened Crd
  import opened CrdConvert

  /** Equality of values, and "above" as a strict weak order. */
  ghost predicate Lawful(ctx: Context) {
    && (forall a, b, c {:trigger ctx.same(a, b), ctx.same(b, c)} :: ctx.same(a, b) && ctx.same(b, c) ==> ctx.same(a, c))
    && (forall a, b {:trigger ctx.above(a, b)} :: !(ctx.above(a, b) && ctx.above(b, a)))
    && (forall a, b, c {:trigger ctx.above(a, b), ctx.above(b, c)} ::
         ctx.above(a, b) && ctx.above(b, c) ==> ctx.above(a, c))
    && (forall a, b, c {:trigger ctx.above(a, c), ctx.above(b, c)} {:trigger ctx.above(a, c), ctx.above(a, b)} ::
          ctx.above(a, c) ==> ctx.above(a, b) || ctx.above(b, c))
  }

  // ----- what a value must satisfy -----

  predicate HasType(v: Value, t: Word, integral: bool) {
    match t
    case NullType => v.Null?
    case BooleanType => v.Bool?
    case StringType => v.Str?
    case NumberType => v.Num?
    case IntegerType => v.Num? && integral
    case ArrayType => v.Arr?
    case ObjectType => v.Dict?
    case _ => false
  }

  predicate OneOf(types: seq<Value>, v: Value, integral: bool) {
    exists t <- types :: t.Str? && HasType(v, t.word, integral)
  }

  predicate TypeOk(node: Fields, v: Value, integral: bool) {
    match Lookup(node, Type)
    case Str(t) => HasType(v, t, integral) || (v.Null? && Lookup(node, Nullable) == YES)
    case Arr(types) => OneOf(types, v, integral) || (v.Null? && Lookup(node, Nullable) == YES)
    case _ => true
  }

  predicate ListedOk(ctx: Context, node: Fields, v: Value) {
    && (Const in node ==> ctx.same(v, node[Const]))
    && (Enum in node && node[Enum].Arr? ==> Contains(ctx, node[Enum].items, v))
  }

  predicate LowerOk(ctx: Context, node: Fields, v: Value) {
    var limit := Lookup(node, ExclusiveMinimum);
    && (Minimum in node ==> !ctx.above(node[Minimum], v))
    && (limit == YES && Minimum in node ==> ctx.above(v, node[Minimum]))
    && (!limit.Null? && !limit.Bool? ==> ctx.above(v, limit))
  }

  predicate UpperOk(ctx: Context, node: Fields, v: Value) {
    var limit := Lookup(node, ExclusiveMaximum);
    && (Maximum in node ==> !ctx.above(v, node[Maximum]))
    && (limit == YES && Maximum in node ==> ctx.above(node[Maximum], v))
    && (!limit.Null? && !limit.Bool? ==> ctx.above(limit, v))
  }

  /** `integral` says whether a number is an integer. */
  predicate Accepts(ctx: Context, node: Fields, v: Value, integral: bool) {
    TypeOk(node, v, integral) && ListedOk(ctx, node, v) && (v.Num? ==> LowerOk(ctx, node, v) && UpperOk(ctx, node, v))
  }

  // ----- one keyword after the other -----

  lemma {:induction false} NonNullKept(types: seq<Value>, v: Value, integral: bool)
    ensures OneOf(types, v, integral)
            <==> OneOf(NonNullTypes(types), v, integral) || (v.Null? && Str(NullType) in types)
  {
    if types != [] {
      var rest, kept := types[1..], NonNullTypes(types[1..]);
      NonNullKept(rest, v, integral);
      assert forall t :: t in types <==> t == types[0] || t in rest;
      assert forall t :: t in NonNullTypes(types) <==> (t == types[0] && t != Str(NullType)) || t in kept;
    }
  }

  lemma TypeListMeaning(node: Fields, v: Value, integral: bool)
    requires TypeList(node).Some? && (Type in TypeList(node).value ==> TypeList(node).value[Type].Str?)
    ensures TypeOk(TypeList(node).value, v, integral) <==> TypeOk(node, v, integral)
  {
    if Lookup(node, Type).Arr? {
      var types := Lookup(node, Type).items;
      NonNullKept(types, v, integral);
      assert NonNullTypes(types) == [NonNullTypes(types)[0]];
    }
  }

  lemma ConstMeaning(ctx: Context, node: Fields, v: Value)
    requires Lawful(ctx) && ConstEnum(ctx, node).Some?
    ensures ListedOk(ctx, ConstEnum(ctx, node).value, v) <==> ListedOk(ctx, node, v)
  {
    if Const in node {
      var c := node[Const];
      assert Contains(ctx, [c], v) <==> ctx.same(v, c) by { assert c in [c]; }
      if Enum in node && ctx.same(v, c) {
        var x :| x in node[Enum].items && ctx.same(c, x);
        assert ctx.same(v, x);
      }
    }
  }

  lemma LowerMeaning(ctx: Context, node: Fields, v: Value)
    requires Lawful(ctx)
    ensures LowerOk(ctx, Bound(ctx, node, ExclusiveMinimum, Minimum, true), v) <==> LowerOk(ctx, node, v)
  {
    var limit := Lookup(node, ExclusiveMinimum);
    if !limit.Null? && !limit.Bool? && Minimum in node {
      var least := node[Minimum];
      assert ctx.above(least, limit) ==> ctx.above(least, v) || ctx.above(v, limit);
      assert ctx.above(least, v) && ctx.above(v, limit) ==> ctx.above(least, limit);
    }
  }

  lemma UpperMeaning(ctx: Context, node: Fields, v: Value)
    requires Lawful(ctx)
    ensures UpperOk(ctx, Bound(ctx, node, ExclusiveMaximum, Maximum, false), v) <==> UpperOk(ctx, node, v)
  {
    var limit := Lookup(node, ExclusiveMaximum);
    if !limit.Null? && !limit.Bool? && Maximum in node {
      var most := node[Maximum];
      assert ctx.above(limit, most) ==> ctx.above(limit, v) || ctx.above(v, most);
      assert ctx.above(limit, v) && ctx.above(v, most) ==> ctx.above(limit, most);
    }
  }

  /** Both nodes agree on every keyword that `Accepts` looks at. */
  predicate SameLeaf(a: Fields, b: Fields) {
    && SameAt(a, b, Type) && SameAt(a, b, Nullable) && SameAt(a, b, Const) && SameAt(a, b, Enum)
    && SameLower(a, b) && SameUpper(a, b)
  }

  predicate SameLower(a: Fields, b: Fields) { SameAt(a, b, Minimum) && SameAt(a, b, ExclusiveMinimum) }
  predicate SameUpper(a: Fields, b: Fields) { SameAt(a, b, Maximum) && SameAt(a, b, ExclusiveMaximum) }

  lemma ListsElsewhere(ctx: Context, node: Fields)
    ensures TypeList(node).Some? ==>
              var r := TypeList(node).value;
              SameAt(r, node, Const) && SameAt(r, node, Enum) && SameLower(r, node) && SameUpper(r, node)
    ensures ConstEnum(ctx, node).Some? ==>
              var r := ConstEnum(ctx, node).value;
              SameAt(r, node, Type) && SameAt(r, node, Nullable) && SameLower(r, node) && SameUpper(r, node)
  {
  }

  lemma BoundsElsewhere(ctx: Context, node: Fields)
    ensures var r := Bounds(ctx, node);
            SameAt(r, node, Type) && SameAt(r, node, Nullable) && SameAt(r, node, Const) && SameAt(r, node, Enum)
    ensures SameUpper(Bound(ctx, node, ExclusiveMinimum, Minimum, true), node)
    ensures SameLower(Bounds(ctx, node), Bound(ctx, node, ExclusiveMinimum, Minimum, true))
  {
  }

  lemma BoundsMeaning(ctx: Context, node: Fields, v: Value)
    requires Lawful(ctx)
    ensures LowerOk(ctx, Bounds(ctx, node), v) && UpperOk(ctx, Bounds(ctx, node), v)
            <==> LowerOk(ctx, node, v) && UpperOk(ctx, node, v)
  {
    BoundsElsewhere(ctx, node);
    LowerMeaning(ctx, node, v);
    UpperMeaning(ctx, Bound(ctx, node, ExclusiveMinimum, Minimum, true), v);
  }

  lemma RestElsewhere(ctx: Context, bounded: Fields)
    requires FirstExample(ctx, bounded - {UniqueItems}).Some?
    ensures SameLeaf(OpenObject(FirstExample(ctx, bounded - {UniqueItems}).value), bounded)
  {
  }

  lemma TypeListAccepts(ctx: Context, node: Fields, typed: Fields, v: Value, integral: bool)
    requires TypeList(node) == Some(typed) && (Type in typed ==> typed[Type].Str?)
    ensures Accepts(ctx, typed, v, integral) <==> Accepts(ctx, node, v, integral)
  {
    ListsElsewhere(ctx, node);
    TypeListMeaning(node, v, integral);
  }

  lemma ConstAccepts(ctx: Context, node: Fields, listed: Fields, v: Value, integral: bool)
    requires Lawful(ctx) && ConstEnum(ctx, node) == Some(listed)
    ensures Accepts(ctx, listed, v, integral) <==> Accepts(ctx, node, v, integral)
  {
    ListsElsewhere(ctx, node);
    ConstMeaning(ctx, node, v);
  }

  lemma BoundsAccept(ctx: Context, node: Fields, bounded: Fields, v: Value, integral: bool)
    requires Lawful(ctx) && bounded == Bounds(ctx, node)
    ensures Accepts(ctx, bounded, v, integral) <==> Accepts(ctx, node, v, integral)
  {
    BoundsElsewhere(ctx, node);
    BoundsMeaning(ctx, node, v);
  }

  lemma LeafAccepts(ctx: Context, a: Fields, b: Fields, v: Value, integral: bool)
    requires SameLeaf(a, b)
    ensures Accepts(ctx, a, v, integral) <==> Accepts(ctx, b, v, integral)
  {
  }

  lemma PreparedLeaf(ctx: Context, node: Fields)
    requires Prepared(ctx, node).Some?
    ensures var typed := TypeList(node).value;
            && SameLeaf(Prepared(ctx, node).value, Bounds(ctx, ConstEnum(ctx, typed).value))
            && (Type in typed ==> typed[Type].Str?)
  {
    var typed := TypeList(node).value;
    var listed := ConstEnum(ctx, typed).value;
    ListsElsewhere(ctx, typed);
    BoundsElsewhere(ctx, listed);
    RestElsewhere(ctx, Bounds(ctx, listed));
  }

  lemma StagesAccept(ctx: Context, node: Fields, typed: Fields, listed: Fields, bounded: Fields, p: Fields, v: Value,
                     integral: bool)
    requires Lawful(ctx) && TypeList(node) == Some(typed) && ConstEnum(ctx, typed) == Some(listed)
             && bounded == Bounds(ctx, listed)
    requires SameLeaf(p, bounded) && (Type in typed ==> typed[Type].Str?)
    ensures Accepts(ctx, p, v, integral) <==> Accepts(ctx, node, v, integral)
  {
    TypeListAccepts(ctx, node, typed, v, integral);
    ConstAccepts(ctx, typed, listed, v, integral);
    BoundsAccept(ctx, listed, bounded, v, integral);
    LeafAccepts(ctx, p, bounded, v, integral);
  }

  /** Preparing a node keeps which values it accepts. */
  lemma PreparedMeaning(ctx: Context, node: Fields, v: Value, integral: bool)
    requires Lawful(ctx) && Prepared(ctx, node).Some?
    ensures Accepts(ctx, Prepared(ctx, node).value, v, integral) <==> Accepts(ctx, node, v, integral)
  {
    PreparedLeaf(ctx, node);
    var typed := TypeList(node).value;
    var listed := ConstEnum(ctx, typed).value;
    StagesAccept(ctx, node, typed, listed, Bounds(ctx, listed), Prepared(ctx, node).value, v, integral);
  }
}
