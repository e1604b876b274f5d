/** Which values a schema accepts, with its references and unions, and what that needs of the
    equality of values. */
module CrdAccept {
  import opened Crd
  import opened CrdConvert
  import opened CrdMeaning
  import opened CrdNull

  /** The checks of single keywords that the rewrite carries along: `integral` says whether a
      number is an integer, `test` whether a value passes a keyword with its argument. */
  datatype Judge = Judge(integral: Value -> bool, test: (Word, Value, Value) -> bool)

  predicate Tested(w: Word) {
    w.Format? || w.Pattern? || w.MultipleOf? || w.MinLength? || w.MaxLength? || w.MinItems? || w.MaxItems?
    || w.MinProperties? || w.MaxProperties? || w.Required? || w.ListType? || w.ListMapKeys? || w.MapType?
    || w.Validations?
  }

  predicate IntegerOrString(judge: Judge, v: Value) { v.Str? || (v.Num? && judge.integral(v)) }

  // ----- acceptance -----

  ghost predicate Tests(judge: Judge, node: Fields, v: Value) {
    forall w <- node :: Tested(w) ==> judge.test(w, node[w], v)
  }

  /** What a node itself asks of a value other than null. */
  ghost predicate Own(ctx: Context, judge: Judge, node: Fields, v: Value) {
    && Accepts(ctx, node, v, judge.integral(v)) && Tests(judge, node, v)
    && (On(ctx, node, IntOrString) ==> IntegerOrString(judge, v))
  }

  ghost predicate Fits(ctx: Context, judge: Judge, s: Value, refs: set<string>, v: Value)
    decreases |ctx.definitions.Keys - refs|, s, 2
  {
    && s.Dict?
    && if Ref in s.fields then
         match Behind(ctx, s.fields, refs)
         case None => false
         case Some(e) =>
           Fewer(ctx.definitions.Keys, refs, e.name); Fits(ctx, judge, Dict(e.fields), refs + {e.name}, v)
       else if v.Null? then TakesNull(ctx, s, refs)
       else Admits(ctx, judge, s, refs, v)
  }

  /** A node without a reference accepts a value other than null. */
  ghost predicate Admits(ctx: Context, judge: Judge, s: Value, refs: set<string>, v: Value)
    requires s.Dict?
    decreases |ctx.definitions.Keys - refs|, s, 1
  {
    && Own(ctx, judge, s.fields, v)
    && FieldsFit(ctx, judge, s, refs, v) && ExtraFits(ctx, judge, s, refs, v)
    && ItemsFit(ctx, judge, s, refs, v) && VariantFits(ctx, judge, s, refs, v)
  }

  /** The names that a node has schemas for. */
  function Known(node: Fields): set<Word> { FieldsOf(Lookup(node, Properties)).Keys }

  ghost predicate FieldsFit(ctx: Context, judge: Judge, s: Value, refs: set<string>, v: Value)
    requires s.Dict?
    decreases |ctx.definitions.Keys - refs|, s, 0
  {
    Properties in s.fields && s.fields[Properties].Dict? && v.Dict? ==>
      forall k <- s.fields[Properties].fields ::
        k in v.fields ==> Fits(ctx, judge, s.fields[Properties].fields[k], refs, v.fields[k])
  }

  ghost predicate ExtraFits(ctx: Context, judge: Judge, s: Value, refs: set<string>, v: Value)
    requires s.Dict?
    decreases |ctx.definitions.Keys - refs|, s, 0
  {
    AdditionalProperties in s.fields && s.fields[AdditionalProperties].Dict? && v.Dict? ==>
      forall k <- v.fields ::
        k !in Known(s.fields) ==> Fits(ctx, judge, s.fields[AdditionalProperties], refs, v.fields[k])
  }

  ghost predicate ItemsFit(ctx: Context, judge: Judge, s: Value, refs: set<string>, v: Value)
    requires s.Dict?
    decreases |ctx.definitions.Keys - refs|, s, 0
  {
    Items in s.fields && v.Arr? ==> forall x <- v.items :: Fits(ctx, judge, s.fields[Items], refs, x)
  }

  /** Some variant of the union besides null accepts the value. */
  ghost predicate VariantFits(ctx: Context, judge: Judge, s: Value, refs: set<string>, v: Value)
    requires s.Dict?
    decreases |ctx.definitions.Keys - refs|, s, 0
  {
    AnyOf in s.fields ==>
      && s.fields[AnyOf].Arr?
      && exists x <- s.fields[AnyOf].items :: x != Typed(NullType) && Fits(ctx, judge, x, refs, v)
  }

  // ----- equality of values -----

  /** Equal values are alike: only numbers and booleans come in several forms. */
  predicate Alike(ctx: Context, a: Value, b: Value) {
    match a
    case Null => b.Null?
    case Bool(_) => b.Bool? || b.Num?
    case Num(_) => b.Bool? || b.Num?
    case Str(_) => b == a
    case Arr(x) => b.Arr? && |b.items| == |x| && forall i :: 0 <= i < |x| ==> ctx.same(x[i], b.items[i])
    case Dict(f) => b.Dict? && b.fields.Keys == f.Keys && forall k <- f :: ctx.same(f[k], b.fields[k])
  }

  ghost predicate Compatible(same: (Value, Value) -> bool, over: (Value, Value) -> bool) {
    forall a, b, c {:trigger same(a, b), over(a, c)} {:trigger same(a, b), over(c, a)} ::
      same(a, b) ==> (over(a, c) <==> over(b, c)) && (over(c, a) <==> over(c, b))
  }

  /** Equality of JSON values as Python has it. */
  ghost predicate Equality(ctx: Context) {
    && (forall a, b {:trigger ctx.same(a, b)} :: ctx.same(a, b) ==> ctx.same(b, a) && Alike(ctx, a, b))
    && EquallyTrue(ctx) && Lawful(ctx) && Compatible(ctx.same, ctx.above)
  }

  /** A keyword does the same for equal arguments. */
  ghost predicate Fair(ctx: Context, judge: Judge) {
    forall w, a, b, v {:trigger ctx.same(a, b), judge.test(w, a, v)} ::
      ctx.same(a, b) ==> (judge.test(w, a, v) <==> judge.test(w, b, v))
  }

  /** The laws can be met. */
  lemma EqualityExists(definitions: map<string, Value>) returns (ctx: Context)
    ensures ctx.definitions == definitions && Equality(ctx)
  {
    ctx := Context(definitions, (a, b) => a == b, (a, b) => false, text => text == "", text => text == "0");
  }

  // ----- bounds -----

  predicate BoundOk(node: Fields, bound: Word, inclusive: Word, over: (Value, Value) -> bool, v: Value) {
    var limit := Lookup(node, bound);
    && (inclusive in node ==> !over(node[inclusive], v))
    && (limit == YES && inclusive in node ==> over(v, node[inclusive]))
    && (!limit.Null? && !limit.Bool? ==> over(v, limit))
  }

  function Under(over: (Value, Value) -> bool): (Value, Value) -> bool { (a, b) => over(b, a) }

  lemma LowerIsBound(ctx: Context, node: Fields, v: Value)
    ensures LowerOk(ctx, node, v) <==> BoundOk(node, ExclusiveMinimum, Minimum, ctx.above, v)
    ensures UpperOk(ctx, node, v) <==> BoundOk(node, ExclusiveMaximum, Maximum, Under(ctx.above), v)
  {
  }
}
