/** Merging the branch of a union into the rest of its node accepts exactly what both accept. */
module CrdMerge {
  import opened Wrappers
  import opened Crd
  import opened CrdConvert
  import opened CrdProofs
  import opened CrdMeaning
  import opened CrdNull
  import opened CrdFree
  import opened CrdAccept

  // ----- equal keywords ask the same -----

  /** Both have the keyword, with equal arguments, or neither has. */
  predicate EqualAt(ctx: Context, a: Fields, b: Fields, k: Word) {
    (k in a <==> k in b) && (k in a ==> ctx.same(a[k], b[k]))
  }

  /** A settled bound asks no more than an equal one. */
  lemma EqualBound(ctx: Context, a: Fields, b: Fields, bound: Word, inclusive: Word, over: (Value, Value) -> bool,
                   v: Value)
    requires Equality(ctx) && Compatible(ctx.same, over)
    requires EqualAt(ctx, a, b, bound) && EqualAt(ctx, a, b, inclusive)
    requires Settled(Lookup(a, bound)) && !IsTrue(ctx, b, bound) && BoundOk(b, bound, inclusive, over, v)
    ensures BoundOk(a, bound, inclusive, over, v)
  {
    var x, y := Lookup(a, bound), Lookup(b, bound);
    if x == YES && inclusive in a {
      assert ctx.same(x, y);
      assert y.Bool? || y.Num?;
      assert Truthy(ctx, y);
      assert y == YES;
    }
  }

  lemma UnderCompatible(ctx: Context)
    requires Equality(ctx)
    ensures Compatible(ctx.same, Under(ctx.above))
  {
  }

  lemma EqualBounds(ctx: Context, a: Fields, b: Fields, v: Value)
    requires Equality(ctx) && EqualAt(ctx, a, b, ExclusiveMinimum) && EqualAt(ctx, a, b, Minimum)
    requires EqualAt(ctx, a, b, ExclusiveMaximum) && EqualAt(ctx, a, b, Maximum)
    requires Settled(Lookup(a, ExclusiveMinimum)) && Settled(Lookup(a, ExclusiveMaximum))
    requires !Shows(ctx, b, TrueBound) && LowerOk(ctx, b, v) && UpperOk(ctx, b, v)
    ensures LowerOk(ctx, a, v) && UpperOk(ctx, a, v)
  {
    LowerIsBound(ctx, a, v);
    LowerIsBound(ctx, b, v);
    UnderCompatible(ctx);
    EqualBound(ctx, a, b, ExclusiveMinimum, Minimum, ctx.above, v);
    EqualBound(ctx, a, b, ExclusiveMaximum, Maximum, Under(ctx.above), v);
  }

  lemma EqualLists(ctx: Context, a: Value, b: Value, v: Value)
    requires Equality(ctx) && ctx.same(a, b)
    ensures a.Arr? <==> b.Arr?
    ensures a.Arr? ==> (Contains(ctx, a.items, v) <==> Contains(ctx, b.items, v))
  {
    assert Alike(ctx, a, b) && ctx.same(b, a) && Alike(ctx, b, a);
    if a.Arr? {
      EqualContains(ctx, a.items, b.items, v);
      EqualContains(ctx, b.items, a.items, v);
    }
  }

  lemma EqualContains(ctx: Context, a: seq<Value>, b: seq<Value>, v: Value)
    requires Equality(ctx) && |a| == |b| && forall i :: 0 <= i < |a| ==> ctx.same(a[i], b[i])
    ensures Contains(ctx, a, v) ==> Contains(ctx, b, v)
  {
    if x :| x in a && ctx.same(v, x) {
      var i :| 0 <= i < |a| && a[i] == x;
      assert ctx.same(v, b[i]) && b[i] in b;
    }
  }

  // ----- merging -----

  /** The common keywords of two nodes have equal arguments. */
  ghost predicate Agree(ctx: Context, left: Fields, right: Fields) {
    forall k <- left :: k in right && !Annotation(k) ==> ctx.same(left[k], right[k])
  }

  lemma MergedJoins(ctx: Context, left: Fields, right: Fields)
    requires Merged(ctx, left, right).Some?
    ensures Agree(ctx, left, right)
  {
    forall k <- left | k in right && !Annotation(k) ensures ctx.same(left[k], right[k]) {
      assert !Conflict(ctx, left, right, k);
    }
  }

  predicate Within(limit: Value, least: Option<Value>, over: (Value, Value) -> bool, v: Value) {
    && (least.Some? ==> !over(least.value, v))
    && (limit == YES && least.Some? ==> over(v, least.value))
    && (!limit.Null? && !limit.Bool? ==> over(v, limit))
  }

  function Given(node: Fields, k: Word): Option<Value> { if k in node then Some(node[k]) else None }

  /** Two bounds and the one they are joined to, told apart from their nodes. */
  lemma JoinWithin(x: Value, y: Value, least: Option<Value>, other: Option<Value>, over: (Value, Value) -> bool,
                   v: Value)
    requires Settled(x) && (x == YES ==> least.Some?) && (y == YES ==> other.Some?)
    requires least.Some? && other.Some? ==>
               (over(least.value, v) <==> over(other.value, v)) && (over(v, least.value) <==> over(v, other.value))
    requires !x.Null? && !y.Null? ==> (x == YES <==> y == YES)
    ensures Within(if y.Null? then x else y, if other.Some? then other else least, over, v)
            <==> Within(x, least, over, v) && Within(y, other, over, v)
  {
  }

  lemma BoundIsWithin(node: Fields, bound: Word, inclusive: Word, over: (Value, Value) -> bool, v: Value)
    ensures BoundOk(node, bound, inclusive, over, v)
            <==> Within(Lookup(node, bound), Given(node, inclusive), over, v)
  {
  }

  lemma JoinShape(left: Fields, right: Fields, k: Word)
    ensures Given(left + right, k) == if k in right then Given(right, k) else Given(left, k)
    ensures Lookup(left + right, k) == if k in right then right[k] else Lookup(left, k)
  {
  }

  /** Equal bounds lie on the same side of a value. */
  ghost predicate SameSide(least: Option<Value>, other: Option<Value>, over: (Value, Value) -> bool, v: Value) {
    least.Some? && other.Some? ==>
      (over(least.value, v) <==> over(other.value, v)) && (over(v, least.value) <==> over(v, other.value))
  }

  /** Both flags are set, if both nodes speak of them. */
  predicate SameFlag(left: Fields, right: Fields, bound: Word) {
    bound in left && bound in right ==>
      (left[bound].Null? <==> right[bound].Null?) && (left[bound] == YES <==> right[bound] == YES)
  }

  lemma JoinsSides(ctx: Context, left: Fields, right: Fields, k: Word, over: (Value, Value) -> bool, v: Value)
    requires Compatible(ctx.same, over) && Agree(ctx, left, right) && !Annotation(k)
    ensures SameSide(Given(left, k), Given(right, k), over, v)
  {
    if k in left && k in right { EqualArguments(ctx, left[k], right[k], over, v); }
  }

  lemma JoinsLimits(ctx: Context, left: Fields, right: Fields, bound: Word)
    requires Equality(ctx) && Agree(ctx, left, right) && !Annotation(bound)
    requires Settled(Lookup(left, bound)) && !IsTrue(ctx, right, bound)
    ensures SameFlag(left, right, bound)
  {
    if bound in left && bound in right { EqualLimits(ctx, left[bound], right[bound]); }
  }

  lemma JoinNodes(left: Fields, right: Fields, bound: Word, inclusive: Word, over: (Value, Value) -> bool, v: Value)
    requires Settled(Lookup(left, bound)) && !Lonely(left, bound, inclusive) && !Lonely(right, bound, inclusive)
    requires SameSide(Given(left, inclusive), Given(right, inclusive), over, v) && SameFlag(left, right, bound)
    ensures Within(Lookup(left + right, bound), Given(left + right, inclusive), over, v)
            <==> Within(Lookup(left, bound), Given(left, inclusive), over, v)
                 && Within(Lookup(right, bound), Given(right, inclusive), over, v)
  {
    JoinShape(left, right, bound);
    JoinShape(left, right, inclusive);
    var x, y, least, other := Lookup(left, bound), Lookup(right, bound), Given(left, inclusive),
        Given(right, inclusive);
    JoinWithin(x, y, least, other, over, v);
    assert Lookup(left + right, bound) == if y.Null? then x else y;
    assert Given(left + right, inclusive) == if other.Some? then other else least;
  }

  /** A bound of the joined node is both bounds. */
  lemma JoinBound(ctx: Context, left: Fields, right: Fields, bound: Word, inclusive: Word,
                  over: (Value, Value) -> bool, v: Value)
    requires Equality(ctx) && Compatible(ctx.same, over) && Agree(ctx, left, right)
    requires !Annotation(bound) && !Annotation(inclusive)
    requires Settled(Lookup(left, bound)) && !Lonely(left, bound, inclusive)
    requires !Lonely(right, bound, inclusive) && !IsTrue(ctx, right, bound)
    ensures BoundOk(left + right, bound, inclusive, over, v)
            <==> BoundOk(left, bound, inclusive, over, v) && BoundOk(right, bound, inclusive, over, v)
  {
    JoinsSides(ctx, left, right, inclusive, over, v);
    JoinsLimits(ctx, left, right, bound);
    JoinNodes(left, right, bound, inclusive, over, v);
    BoundIsWithin(left, bound, inclusive, over, v);
    BoundIsWithin(right, bound, inclusive, over, v);
    BoundIsWithin(left + right, bound, inclusive, over, v);
  }

  lemma EqualArguments(ctx: Context, a: Value, b: Value, over: (Value, Value) -> bool, v: Value)
    requires Compatible(ctx.same, over) && ctx.same(a, b)
    ensures (over(a, v) <==> over(b, v)) && (over(v, a) <==> over(v, b))
  {
  }

  /** Equal limits are flags of the same value, unless one is a number that equals a flag. */
  lemma EqualLimits(ctx: Context, x: Value, y: Value)
    requires Equality(ctx) && ctx.same(x, y) && Settled(x) && (y.Num? ==> !ctx.same(YES, y))
    ensures x.Null? <==> y.Null?
    ensures x == YES <==> y == YES
  {
    assert Alike(ctx, x, y) && ctx.same(y, x) && Alike(ctx, y, x);
    assert Truthy(ctx, x) <==> Truthy(ctx, y);
  }

  // ----- a node of its own -----

  /** No bound of one side changes what the other says. */
  predicate Fitting(ctx: Context, left: Fields, right: Fields) {
    !Shows(ctx, left, LonelyFlag) && !Shows(ctx, right, LonelyFlag) && !Shows(ctx, right, TrueBound)
  }

  lemma JoinBounds(ctx: Context, left: Fields, right: Fields, v: Value)
    requires Equality(ctx) && Agree(ctx, left, right)
    requires Settled(Lookup(left, ExclusiveMinimum)) && Settled(Lookup(left, ExclusiveMaximum))
    requires Fitting(ctx, left, right)
    ensures LowerOk(ctx, left + right, v) <==> LowerOk(ctx, left, v) && LowerOk(ctx, right, v)
    ensures UpperOk(ctx, left + right, v) <==> UpperOk(ctx, left, v) && UpperOk(ctx, right, v)
  {
    UnderCompatible(ctx);
    JoinBound(ctx, left, right, ExclusiveMinimum, Minimum, ctx.above, v);
    JoinBound(ctx, left, right, ExclusiveMaximum, Maximum, Under(ctx.above), v);
    LowerIsBound(ctx, left, v);
    LowerIsBound(ctx, right, v);
    LowerIsBound(ctx, left + right, v);
  }

  predicate PlainType(node: Fields) { Type in node ==> node[Type].Str? }

  lemma JoinType(ctx: Context, left: Fields, right: Fields, v: Value, integral: bool)
    requires Equality(ctx) && Agree(ctx, left, right) && PlainType(left) && PlainType(right) && !v.Null?
    ensures TypeOk(left + right, v, integral) <==> TypeOk(left, v, integral) && TypeOk(right, v, integral)
  {
    if Type in left && Type in right { assert Alike(ctx, left[Type], right[Type]); }
  }

  lemma JoinListed(ctx: Context, left: Fields, right: Fields, v: Value)
    requires Equality(ctx) && Agree(ctx, left, right) && Const !in left
    ensures ListedOk(ctx, left + right, v) <==> ListedOk(ctx, left, v) && ListedOk(ctx, right, v)
  {
    if Enum in left && Enum in right { EqualLists(ctx, left[Enum], right[Enum], v); }
  }

  lemma JoinTests(ctx: Context, judge: Judge, left: Fields, right: Fields, v: Value)
    requires Fair(ctx, judge) && Agree(ctx, left, right)
    ensures Tests(judge, left + right, v) <==> Tests(judge, left, v) && Tests(judge, right, v)
  {
    forall w <- left | w in right && Tested(w) ensures judge.test(w, left[w], v) <==> judge.test(w, right[w], v) {
      assert ctx.same(left[w], right[w]);
    }
    if Tests(judge, left + right, v) {
      forall w <- left | Tested(w) ensures judge.test(w, left[w], v) { assert w in left + right; }
      forall w <- right | Tested(w) ensures judge.test(w, right[w], v) { assert w in left + right; }
    }
  }

  /** A compiled branch: settled and typed by one word. */
  predicate Compiled(node: Fields) {
    && PlainType(node) && Const !in node
    && Settled(Lookup(node, ExclusiveMinimum)) && Settled(Lookup(node, ExclusiveMaximum))
  }

  lemma JoinOwn(ctx: Context, judge: Judge, left: Fields, right: Fields, v: Value)
    requires Equality(ctx) && Fair(ctx, judge) && Merged(ctx, left, right).Some? && !v.Null?
    requires Compiled(left) && PlainType(right)
    requires Fitting(ctx, left, right)
    ensures Own(ctx, judge, left + right, v) <==> Own(ctx, judge, left, v) && Own(ctx, judge, right, v)
  {
    MergedJoins(ctx, left, right);
    JoinBounds(ctx, left, right, v);
    JoinType(ctx, left, right, v, judge.integral(v));
    JoinListed(ctx, left, right, v);
    JoinTests(ctx, judge, left, right, v);
    MergedOn(ctx, left, right, IntOrString);
  }

  lemma ShapeCompiled(ctx: Context, node: Fields)
    requires Shape(ctx, node)
    ensures Compiled(node) && Resolved(ctx, node)
  {
    NormalResolved(ctx, node);
    var body := node - {AnyOf};
    assert SameAt(body, node, Type) && SameAt(body, node, Const) && SameAt(body, node, ExclusiveMinimum)
           && SameAt(body, node, ExclusiveMaximum);
    assert Const in body ==> Keyword(Const);
  }

  // ----- equal schemas accept the same values -----

  predicate EqualNodes(ctx: Context, a: Fields, b: Fields) { a.Keys == b.Keys && forall k <- a :: ctx.same(a[k], b[k]) }

  lemma EqualOwn(ctx: Context, judge: Judge, a: Fields, b: Fields, v: Value)
    requires Equality(ctx) && Fair(ctx, judge) && EqualNodes(ctx, a, b) && Compiled(a) && !v.Null?
    requires !Shows(ctx, b, TrueBound) && Own(ctx, judge, b, v)
    ensures Own(ctx, judge, a, v)
  {
    if v.Num? { EqualNodeBounds(ctx, a, b, v); }
    EqualLeaf(ctx, a, b, v, judge.integral(v));
    EqualTests(ctx, judge, a, b, v);
    EqualOn(ctx, a, b, IntOrString);
  }

  lemma EqualNodeBounds(ctx: Context, a: Fields, b: Fields, v: Value)
    requires Equality(ctx) && EqualNodes(ctx, a, b) && Compiled(a)
    requires !Shows(ctx, b, TrueBound) && LowerOk(ctx, b, v) && UpperOk(ctx, b, v)
    ensures LowerOk(ctx, a, v) && UpperOk(ctx, a, v)
  {
    EqualAtEach(ctx, a, b, Minimum);
    EqualAtEach(ctx, a, b, Maximum);
    EqualAtEach(ctx, a, b, ExclusiveMinimum);
    EqualAtEach(ctx, a, b, ExclusiveMaximum);
    EqualBounds(ctx, a, b, v);
  }

  lemma EqualAtEach(ctx: Context, a: Fields, b: Fields, k: Word)
    requires EqualNodes(ctx, a, b)
    ensures EqualAt(ctx, a, b, k)
  {
  }

  lemma EqualLeaf(ctx: Context, a: Fields, b: Fields, v: Value, integral: bool)
    requires Equality(ctx) && EqualNodes(ctx, a, b) && Compiled(a) && !v.Null?
    ensures TypeOk(a, v, integral) <==> TypeOk(b, v, integral)
    ensures ListedOk(ctx, a, v) <==> ListedOk(ctx, b, v)
  {
    if Type in a { assert Alike(ctx, a[Type], b[Type]); }
    if Enum in a { EqualLists(ctx, a[Enum], b[Enum], v); }
  }

  lemma EqualTests(ctx: Context, judge: Judge, a: Fields, b: Fields, v: Value)
    requires Fair(ctx, judge) && EqualNodes(ctx, a, b) && Tests(judge, b, v)
    ensures Tests(judge, a, v)
  {
    forall w <- a | Tested(w) ensures judge.test(w, a[w], v) { assert ctx.same(a[w], b[w]) && judge.test(w, b[w], v); }
  }

  lemma EqualOn(ctx: Context, a: Fields, b: Fields, k: Word)
    requires EquallyTrue(ctx) && EqualNodes(ctx, a, b)
    ensures On(ctx, a, k) <==> On(ctx, b, k)
  {
    if k in a { assert ctx.same(a[k], b[k]); }
  }

  /** The marker equals only itself. */
  lemma EqualMarker(ctx: Context, b: Value)
    requires Equality(ctx) && ctx.same(INT_OR_STRING, b)
    ensures b == INT_OR_STRING
  {
    assert Alike(ctx, INT_OR_STRING, b);
    EqualTyped(ctx, IntegerType, b.items[0]);
    EqualTyped(ctx, StringType, b.items[1]);
    assert b.items == INT_OR_STRING.items;
  }

  lemma EqualTyped(ctx: Context, t: Word, b: Value)
    requires Equality(ctx) && ctx.same(Typed(t), b)
    ensures b == Typed(t)
  {
    var node := Typed(t).fields;
    assert Alike(ctx, Typed(t), b) && Type in node && ctx.same(node[Type], b.fields[Type]);
    assert Alike(ctx, Str(t), b.fields[Type]);
    assert b.fields == node;
  }

  lemma EqualResolved(ctx: Context, a: Fields, b: Fields)
    requires Equality(ctx) && EqualNodes(ctx, a, b) && Resolved(ctx, a)
    ensures Resolved(ctx, b) && SameAt(a, b, AnyOf)
  {
    EqualOn(ctx, a, b, IntOrString);
    if AnyOf in a { EqualMarker(ctx, b[AnyOf]); }
  }

  lemma EqualNull(ctx: Context, a: Fields, b: Fields, refs: set<string>, again: set<string>)
    requires Equality(ctx) && EqualNodes(ctx, a, b) && Resolved(ctx, a) && Resolved(ctx, b) && PlainType(a)
    ensures TakesNull(ctx, Dict(a), again) <==> TakesNull(ctx, Dict(b), refs)
  {
    ResolvedNull(ctx, a, again);
    ResolvedNull(ctx, b, refs);
    EqualOn(ctx, a, b, IntOrString);
    EqualOn(ctx, a, b, Nullable);
    if Type in a { assert Alike(ctx, a[Type], b[Type]); }
  }

  /** What the marker asks does not depend on references. */
  lemma MarkerFits(ctx: Context, judge: Judge, s: Value, refs: set<string>, v: Value)
    requires s.Dict? && (AnyOf in s.fields ==> s.fields[AnyOf] == INT_OR_STRING) && !v.Null?
    ensures VariantFits(ctx, judge, s, refs, v) <==> AnyOf !in s.fields || IntegerOrString(judge, v)
  {
    if AnyOf in s.fields {
      var i, t := Typed(IntegerType), Typed(StringType);
      TypedDiffer();
      TypedFits(ctx, judge, IntegerType, refs, v);
      TypedFits(ctx, judge, StringType, refs, v);
      assert i in INT_OR_STRING.items && t in INT_OR_STRING.items;
      assert forall x <- INT_OR_STRING.items :: x == i || x == t;
    }
  }

  lemma TypedFits(ctx: Context, judge: Judge, t: Word, refs: set<string>, v: Value)
    requires !v.Null?
    ensures Fits(ctx, judge, Typed(t), refs, v) <==> HasType(v, t, judge.integral(v))
  {
    var node := Typed(t).fields;
    OnlyTyped(ctx, judge, node, t, v);
    assert Ref !in node && Properties !in node && AdditionalProperties !in node && Items !in node && AnyOf !in node;
    assert Admits(ctx, judge, Typed(t), refs, v) <==> Own(ctx, judge, node, v);
  }

  lemma OnlyTyped(ctx: Context, judge: Judge, node: Fields, t: Word, v: Value)
    requires node == map[Type := Str(t)] && !v.Null?
    ensures Own(ctx, judge, node, v) <==> HasType(v, t, judge.integral(v))
    ensures node.Keys == {Type}
  {
    assert LowerOk(ctx, node, v) && UpperOk(ctx, node, v);
    assert ListedOk(ctx, node, v);
    assert !On(ctx, node, IntOrString);
    assert Tests(judge, node, v);
  }

  /** What a compiled schema shares with any equal one: nothing is added by comparing them. */
  ghost predicate Comparable(ctx: Context, judge: Judge, a: Value, b: Value) {
    Equality(ctx) && Fair(ctx, judge) && Normal(ctx, a) && ctx.same(a, b) && Free(ctx, b, TrueBound)
  }

  lemma ComparableNodes(ctx: Context, judge: Judge, a: Value, b: Value)
    requires Comparable(ctx, judge, a, b)
    ensures b.Dict? && EqualNodes(ctx, a.fields, b.fields) && Compiled(a.fields)
    ensures Resolved(ctx, a.fields) && Resolved(ctx, b.fields) && SameAt(a.fields, b.fields, AnyOf)
    ensures !Shows(ctx, b.fields, TrueBound)
  {
    assert Alike(ctx, a, b);
    ShapeCompiled(ctx, a.fields);
    EqualResolved(ctx, a.fields, b.fields);
  }

  /** A value that fits a schema fits the compiled one that equals it. */
  lemma {:induction false} EqualFits(ctx: Context, judge: Judge, a: Value, b: Value, refs: set<string>,
                                     again: set<string>, v: Value)
    requires Comparable(ctx, judge, a, b) && Fits(ctx, judge, b, refs, v)
    ensures Fits(ctx, judge, a, again, v)
    decreases a, 1
  {
    ComparableNodes(ctx, judge, a, b);
    if v.Null? {
      EqualNull(ctx, a.fields, b.fields, refs, again);
    } else {
      EqualOwn(ctx, judge, a.fields, b.fields, v);
      MarkerFits(ctx, judge, a, again, v);
      MarkerFits(ctx, judge, b, refs, v);
      EqualFields(ctx, judge, a, b, refs, again, v);
      EqualExtra(ctx, judge, a, b, refs, again, v);
      EqualItems(ctx, judge, a, b, refs, again, v);
    }
  }

  lemma {:induction false} EqualFields(ctx: Context, judge: Judge, a: Value, b: Value, refs: set<string>,
                                       again: set<string>, v: Value)
    requires Comparable(ctx, judge, a, b) && b.Dict? && EqualNodes(ctx, a.fields, b.fields)
    requires FieldsFit(ctx, judge, b, refs, v)
    ensures FieldsFit(ctx, judge, a, again, v)
    decreases a, 0
  {
    if Properties in a.fields && a.fields[Properties].Dict? && v.Dict? {
      var p := a.fields[Properties].fields;
      forall k <- p | k in v.fields ensures Fits(ctx, judge, p[k], again, v.fields[k]) {
        ComparableFields(ctx, judge, a, b, k);
        EqualFits(ctx, judge, p[k], b.fields[Properties].fields[k], refs, again, v.fields[k]);
      }
    }
  }

  lemma ComparableFields(ctx: Context, judge: Judge, a: Value, b: Value, k: Word)
    requires Comparable(ctx, judge, a, b) && b.Dict? && EqualNodes(ctx, a.fields, b.fields)
    requires Properties in a.fields && a.fields[Properties].Dict? && k in a.fields[Properties].fields
    ensures b.fields[Properties].Dict? && k in b.fields[Properties].fields
    ensures Comparable(ctx, judge, a.fields[Properties].fields[k], b.fields[Properties].fields[k])
  {
    EqualDicts(ctx, a.fields[Properties], b.fields[Properties], k);
    NormalField(ctx, a, k);
    FieldFree(ctx, b.fields, k, TrueBound);
  }

  lemma EqualDicts(ctx: Context, p: Value, q: Value, k: Word)
    requires Equality(ctx) && ctx.same(p, q) && p.Dict? && k in p.fields
    ensures q.Dict? && k in q.fields && ctx.same(p.fields[k], q.fields[k])
  {
    assert Alike(ctx, p, q);
  }

  lemma NormalField(ctx: Context, s: Value, k: Word)
    requires Normal(ctx, s) && Properties in s.fields && s.fields[Properties].Dict? && k in s.fields[Properties].fields
    ensures Normal(ctx, s.fields[Properties].fields[k])
  {
    assert NormalFields(ctx, s.fields[Properties], On(ctx, s.fields, EmbeddedResource));
  }

  lemma EqualKnown(ctx: Context, a: Fields, b: Fields)
    requires Equality(ctx) && EqualNodes(ctx, a, b)
    ensures Known(a) == Known(b)
  {
    if Properties in a {
      var p, q := a[Properties], b[Properties];
      assert ctx.same(p, q) && Alike(ctx, p, q) && Alike(ctx, q, p);
    }
  }

  lemma {:induction false} EqualExtra(ctx: Context, judge: Judge, a: Value, b: Value, refs: set<string>,
                                      again: set<string>, v: Value)
    requires Comparable(ctx, judge, a, b) && b.Dict? && EqualNodes(ctx, a.fields, b.fields)
    requires ExtraFits(ctx, judge, b, refs, v)
    ensures ExtraFits(ctx, judge, a, again, v)
    decreases a, 0
  {
    if AdditionalProperties in a.fields && a.fields[AdditionalProperties].Dict? && v.Dict? {
      var p, q := a.fields[AdditionalProperties], b.fields[AdditionalProperties];
      assert ctx.same(p, q) && Alike(ctx, p, q);
      EqualKnown(ctx, a.fields, b.fields);
      BelowFree(ctx, b.fields, AdditionalProperties, TrueBound);
      forall k <- v.fields | k !in Known(a.fields) ensures Fits(ctx, judge, p, again, v.fields[k]) {
        EqualFits(ctx, judge, p, q, refs, again, v.fields[k]);
      }
    }
  }

  lemma {:induction false} EqualItems(ctx: Context, judge: Judge, a: Value, b: Value, refs: set<string>,
                                      again: set<string>, v: Value)
    requires Comparable(ctx, judge, a, b) && b.Dict? && EqualNodes(ctx, a.fields, b.fields)
    requires ItemsFit(ctx, judge, b, refs, v)
    ensures ItemsFit(ctx, judge, a, again, v)
    decreases a, 0
  {
    if Items in a.fields && v.Arr? {
      BelowFree(ctx, b.fields, Items, TrueBound);
      forall x <- v.items ensures Fits(ctx, judge, a.fields[Items], again, x) {
        EqualFits(ctx, judge, a.fields[Items], b.fields[Items], refs, again, x);
      }
    }
  }

  // ----- children of a joined node -----

  lemma SameFit(ctx: Context, judge: Judge, a: Fields, b: Fields, refs: set<string>, v: Value)
    ensures SameAt(a, b, Properties) ==>
              (FieldsFit(ctx, judge, Dict(a), refs, v) <==> FieldsFit(ctx, judge, Dict(b), refs, v))
    ensures SameAt(a, b, AdditionalProperties) && Known(a) == Known(b) ==>
              (ExtraFits(ctx, judge, Dict(a), refs, v) <==> ExtraFits(ctx, judge, Dict(b), refs, v))
    ensures SameAt(a, b, Items) ==>
              (ItemsFit(ctx, judge, Dict(a), refs, v) <==> ItemsFit(ctx, judge, Dict(b), refs, v))
  {
  }

  /** A compiled branch that merges with the rest of its node. */
  ghost predicate Merging(ctx: Context, judge: Judge, left: Fields, right: Fields) {
    && Equality(ctx) && Fair(ctx, judge) && Normal(ctx, Dict(left)) && Merged(ctx, left, right).Some?
    && Free(ctx, Dict(left), LonelyFlag) && Free(ctx, Dict(right), LonelyFlag) && Free(ctx, Dict(right), TrueBound)
  }

  lemma MergingAt(ctx: Context, judge: Judge, left: Fields, right: Fields, k: Word)
    requires Merging(ctx, judge, left, right) && k in left && k in right && !Annotation(k)
    ensures ctx.same(left[k], right[k]) && Alike(ctx, left[k], right[k]) && Alike(ctx, right[k], left[k])
  {
    assert !Conflict(ctx, left, right, k);
  }

  lemma LeftField(ctx: Context, judge: Judge, left: Fields, right: Fields, k: Word)
    requires Merging(ctx, judge, left, right) && Properties in left && Properties in right && left[Properties].Dict?
    requires k in left[Properties].fields
    ensures right[Properties].Dict? && k in right[Properties].fields
    ensures Comparable(ctx, judge, left[Properties].fields[k], right[Properties].fields[k])
  {
    MergingAt(ctx, judge, left, right, Properties);
    EqualDicts(ctx, left[Properties], right[Properties], k);
    NormalField(ctx, Dict(left), k);
    FieldFree(ctx, right, k, TrueBound);
  }

  /** What both have, the rest decides. */
  lemma LeftFields(ctx: Context, judge: Judge, left: Fields, right: Fields, refs: set<string>, v: Value)
    requires Merging(ctx, judge, left, right) && Properties in left && Properties in right
    requires FieldsFit(ctx, judge, Dict(right), refs, v)
    ensures FieldsFit(ctx, judge, Dict(left), refs, v)
  {
    if left[Properties].Dict? && v.Dict? {
      var p := left[Properties].fields;
      forall k <- p | k in v.fields ensures Fits(ctx, judge, p[k], refs, v.fields[k]) {
        LeftField(ctx, judge, left, right, k);
        EqualFits(ctx, judge, p[k], right[Properties].fields[k], refs, refs, v.fields[k]);
      }
    }
  }

  lemma LeftBelow(ctx: Context, judge: Judge, left: Fields, right: Fields, key: Word)
    requires Merging(ctx, judge, left, right) && key in left && key in right
    requires key == Items || (key == AdditionalProperties && left[key].Dict?)
    ensures Comparable(ctx, judge, left[key], right[key])
  {
    MergingAt(ctx, judge, left, right, key);
    BelowFree(ctx, right, key, TrueBound);
  }

  lemma LeftItems(ctx: Context, judge: Judge, left: Fields, right: Fields, refs: set<string>, v: Value)
    requires Merging(ctx, judge, left, right) && Items in left && Items in right
    requires ItemsFit(ctx, judge, Dict(right), refs, v)
    ensures ItemsFit(ctx, judge, Dict(left), refs, v)
  {
    if v.Arr? {
      LeftBelow(ctx, judge, left, right, Items);
      forall x <- v.items ensures Fits(ctx, judge, left[Items], refs, x) {
        EqualFits(ctx, judge, left[Items], right[Items], refs, refs, x);
      }
    }
  }

  lemma LeftExtra(ctx: Context, judge: Judge, left: Fields, right: Fields, refs: set<string>, v: Value)
    requires Merging(ctx, judge, left, right) && AdditionalProperties in left && AdditionalProperties in right
    requires Known(left) == Known(right) && ExtraFits(ctx, judge, Dict(right), refs, v)
    ensures ExtraFits(ctx, judge, Dict(left), refs, v)
  {
    if left[AdditionalProperties].Dict? && v.Dict? {
      LeftBelow(ctx, judge, left, right, AdditionalProperties);
      MergingAt(ctx, judge, left, right, AdditionalProperties);
      forall k <- v.fields | k !in Known(left) ensures Fits(ctx, judge, left[AdditionalProperties], refs, v.fields[k]) {
        EqualFits(ctx, judge, left[AdditionalProperties], right[AdditionalProperties], refs, refs, v.fields[k]);
      }
    }
  }

  lemma JoinItems(ctx: Context, judge: Judge, left: Fields, right: Fields, refs: set<string>, v: Value)
    requires Merging(ctx, judge, left, right)
    ensures ItemsFit(ctx, judge, Dict(left + right), refs, v)
            <==> ItemsFit(ctx, judge, Dict(left), refs, v) && ItemsFit(ctx, judge, Dict(right), refs, v)
  {
    SameFit(ctx, judge, left + right, left, refs, v);
    SameFit(ctx, judge, left + right, right, refs, v);
    if Items in left && Items in right && ItemsFit(ctx, judge, Dict(right), refs, v) {
      LeftItems(ctx, judge, left, right, refs, v);
    }
  }

  lemma JoinFields(ctx: Context, judge: Judge, left: Fields, right: Fields, refs: set<string>, v: Value)
    requires Merging(ctx, judge, left, right)
    ensures FieldsFit(ctx, judge, Dict(left + right), refs, v)
            <==> FieldsFit(ctx, judge, Dict(left), refs, v) && FieldsFit(ctx, judge, Dict(right), refs, v)
  {
    SameFit(ctx, judge, left + right, left, refs, v);
    SameFit(ctx, judge, left + right, right, refs, v);
    if Properties in left && Properties in right && FieldsFit(ctx, judge, Dict(right), refs, v) {
      LeftFields(ctx, judge, left, right, refs, v);
    }
  }

  /** A node with additional properties knows no names, and neither does what it was joined from. */
  lemma NothingKnown(ctx: Context, judge: Judge, left: Fields, right: Fields)
    requires Merging(ctx, judge, left, right)
    requires Properties in left + right ==> (left + right)[Properties].Dict?
    requires Known(left + right) == {}
    ensures Known(left) == {} && Known(right) == {}
  {
    if Properties in left && Properties in right { MergingAt(ctx, judge, left, right, Properties); }
  }

  lemma JoinExtra(ctx: Context, judge: Judge, left: Fields, right: Fields, refs: set<string>, v: Value)
    requires Merging(ctx, judge, left, right)
    requires Properties in left + right ==> (left + right)[Properties].Dict?
    requires Lookup(left + right, AdditionalProperties).Dict? ==> Known(left + right) == {}
    ensures ExtraFits(ctx, judge, Dict(left + right), refs, v)
            <==> ExtraFits(ctx, judge, Dict(left), refs, v) && ExtraFits(ctx, judge, Dict(right), refs, v)
  {
    if AdditionalProperties in left && AdditionalProperties in right {
      MergingAt(ctx, judge, left, right, AdditionalProperties);
    }
    if Lookup(left + right, AdditionalProperties).Dict? {
      NothingKnown(ctx, judge, left, right);
      SameFit(ctx, judge, left + right, left, refs, v);
      SameFit(ctx, judge, left + right, right, refs, v);
      if AdditionalProperties in left && AdditionalProperties in right
         && ExtraFits(ctx, judge, Dict(right), refs, v) {
        LeftExtra(ctx, judge, left, right, refs, v);
      }
    }
  }

  lemma JoinVariants(ctx: Context, judge: Judge, left: Fields, right: Fields, refs: set<string>, v: Value)
    requires Resolved(ctx, left) && Resolved(ctx, right) && !v.Null?
    ensures VariantFits(ctx, judge, Dict(left + right), refs, v)
            <==> VariantFits(ctx, judge, Dict(left), refs, v) && VariantFits(ctx, judge, Dict(right), refs, v)
  {
    MarkerFits(ctx, judge, Dict(left), refs, v);
    MarkerFits(ctx, judge, Dict(right), refs, v);
    MarkerFits(ctx, judge, Dict(left + right), refs, v);
  }

  /** A value other than null is admitted by the merged node exactly if the branch and the rest
      admit it. */
  lemma JoinAdmits(ctx: Context, judge: Judge, left: Fields, right: Fields, refs: set<string>, v: Value)
    requires Merging(ctx, judge, left, right) && PlainType(right) && Resolved(ctx, right) && !v.Null?
    requires Properties in left + right ==> (left + right)[Properties].Dict?
    requires Lookup(left + right, AdditionalProperties).Dict? ==> Known(left + right) == {}
    ensures Admits(ctx, judge, Dict(left + right), refs, v)
            <==> Admits(ctx, judge, Dict(left), refs, v) && Admits(ctx, judge, Dict(right), refs, v)
  {
    ShapeCompiled(ctx, left);
    JoinOwn(ctx, judge, left, right, v);
    JoinFields(ctx, judge, left, right, refs, v);
    JoinExtra(ctx, judge, left, right, refs, v);
    JoinItems(ctx, judge, left, right, refs, v);
    JoinVariants(ctx, judge, left, right, refs, v);
  }
}
