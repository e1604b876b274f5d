/** Which schemas accept null, read off the document, and that this is exactly what the rewrite
    writes down as `nullable`. */
module CrdNull {
  import opened Wrappers
  import opened Crd
  import opened CrdConvert
  import opened CrdProofs
  import opened CrdStable

  /** The node that a reference stands for: the definition, overlaid with what stands beside the
      reference. */
  function Behind(ctx: Context, node: Fields, refs: set<string>): (r: Option<Expansion>)
    requires Ref in node
    ensures r.Some? ==> r.value.name in ctx.definitions && r.value.name !in refs
  {
    match Target(node[Ref])
    case None => None
    case Some(name) =>
      if name in refs || name !in ctx.definitions || !ctx.definitions[name].Dict? then None
      else Some(Expansion(name, ctx.definitions[name].fields + (node - {Ref})))
  }

  lemma ExpandedBehind(ctx: Context, node: Fields, refs: set<string>)
    requires Ref in node && Expanded(ctx, node, refs).Some?
    ensures Behind(ctx, node, refs) == Expanded(ctx, node, refs)
  {
  }

  predicate ListsNull(node: Fields) {
    || (Lookup(node, Type).Arr? && Str(NullType) in Lookup(node, Type).items)
    || (Lookup(node, AnyOf).Arr? && Typed(NullType) in Lookup(node, AnyOf).items)
  }

  /** The schema says of what type a value is, itself or in a variant. */
  predicate Shaped(ctx: Context, s: Value, refs: set<string>)
    decreases |ctx.definitions.Keys - refs|, s
  {
    && s.Dict?
    && if Ref in s.fields then
         match Behind(ctx, s.fields, refs)
         case None => false
         case Some(e) => Fewer(ctx.definitions.Keys, refs, e.name); Shaped(ctx, Dict(e.fields), refs + {e.name})
       else
         || Type in s.fields || On(ctx, s.fields, IntOrString)
         || (AnyOf in s.fields && s.fields[AnyOf].Arr?
             && exists x <- s.fields[AnyOf].items :: x != Typed(NullType) && Shaped(ctx, x, refs))
  }

  /** The schema accepts null: it says so, lists null as a type or variant, has a variant that
      accepts null, or says of no type at all. */
  predicate TakesNull(ctx: Context, s: Value, refs: set<string>)
    decreases |ctx.definitions.Keys - refs|, s
  {
    && s.Dict?
    && if Ref in s.fields then
         match Behind(ctx, s.fields, refs)
         case None => false
         case Some(e) => Fewer(ctx.definitions.Keys, refs, e.name); TakesNull(ctx, Dict(e.fields), refs + {e.name})
       else
         || On(ctx, s.fields, Nullable) || ListsNull(s.fields) || !Shaped(ctx, s, refs)
         || (AnyOf in s.fields && s.fields[AnyOf].Arr?
             && exists x <- s.fields[AnyOf].items :: x != Typed(NullType) && TakesNull(ctx, x, refs))
  }

  /** Values that Python calls equal are equally true. */
  ghost predicate EquallyTrue(ctx: Context) {
    forall a, b {:trigger ctx.same(a, b)} :: ctx.same(a, b) ==> (Truthy(ctx, a) <==> Truthy(ctx, b))
  }

  predicate Shapes(ctx: Context, node: Fields) { Type in node || On(ctx, node, IntOrString) }

  /** What the rewrite must return for the null side. */
  ghost predicate NullSide(ctx: Context, raw: Value, refs: set<string>, r: Fields) {
    && (Shaped(ctx, raw, refs) <==> Shapes(ctx, r))
    && (TakesNull(ctx, raw, refs) <==> On(ctx, r, Nullable))
    && (!Shapes(ctx, r) ==> Lookup(r, Nullable) == YES)
  }

  // ----- one node -----

  predicate SameNull(ctx: Context, a: Fields, b: Fields) {
    SameAt(a, b, Type) && SameAt(a, b, IntOrString) && SameAt(a, b, Nullable)
  }

  /** Preparing a node writes a null type as `nullable`. */
  lemma PreparedNull(ctx: Context, node: Fields)
    requires Prepared(ctx, node).Some?
    ensures var p := Prepared(ctx, node).value;
            && (Type in p <==> Type in node) && SameAt(p, node, IntOrString) && AnyOf !in node
            && (Lookup(node, Type).Arr? ==> Str(NullType) in Lookup(node, Type).items && Lookup(p, Nullable) == YES)
            && (!Lookup(node, Type).Arr? ==> SameAt(p, node, Nullable))
            && (Type in p ==> !p[Type].Arr?)
  {
    var typed := TypeList(node).value;
    var listed := ConstEnum(ctx, typed).value;
    assert SameNull(ctx, listed, typed) && (AnyOf in listed <==> AnyOf in node);
    BoundsNull(ctx, listed);
    var bounded := Bounds(ctx, listed);
    ShownNull(ctx, bounded);
  }

  lemma BoundsNull(ctx: Context, node: Fields)
    ensures SameNull(ctx, Bounds(ctx, node), node) && (AnyOf in Bounds(ctx, node) <==> AnyOf in node)
  {
  }

  lemma ShownNull(ctx: Context, bounded: Fields)
    requires FirstExample(ctx, bounded - {UniqueItems}).Some?
    ensures var shown := FirstExample(ctx, bounded - {UniqueItems}).value;
            SameNull(ctx, OpenObject(shown), bounded) && (AnyOf in shown <==> AnyOf in bounded)
  {
  }

  lemma CompletedNull(ctx: Context, whole: Fields)
    requires Completed(ctx, whole).Some?
    ensures var r := Completed(ctx, whole).value;
            && (Shapes(ctx, r) <==> Shapes(ctx, whole))
            && if Shapes(ctx, whole) then SameAt(r, whole, Nullable) else Lookup(r, Nullable) == YES
  {
  }

  predicate NullOfNode(ctx: Context, node: Fields) {
    On(ctx, node, Nullable) || (Lookup(node, Type).Arr? && Str(NullType) in Lookup(node, Type).items)
    || !Shapes(ctx, node)
  }

  ghost predicate NullOfPlain(ctx: Context, node: Fields, r: Fields) {
    && (Shapes(ctx, r) <==> Shapes(ctx, node)) && (On(ctx, r, Nullable) <==> NullOfNode(ctx, node))
    && (!Shapes(ctx, r) ==> Lookup(r, Nullable) == YES)
    && (Lookup(node, Nullable) == YES ==> Lookup(r, Nullable) == YES)
  }

  lemma WholeNull(ctx: Context, node: Fields, p: Fields, whole: Fields)
    requires Prepared(ctx, node) == Some(p) && SameNull(ctx, whole, p) && Completed(ctx, whole).Some?
    ensures NullOfPlain(ctx, node, Completed(ctx, whole).value) && AnyOf !in node
  {
    PreparedNull(ctx, node);
    CompletedNull(ctx, whole);
  }

  lemma ChildrenNull(ctx: Context, p: Fields, children: Fields)
    requires children.Keys <= {Properties, Items, AdditionalProperties}
    ensures SameNull(ctx, p + children, p)
  {
  }

  lemma PlainNull(ctx: Context, raw: Value, node: Fields, refs: set<string>)
    requires raw.Dict? && SameChildren(raw.fields, node) && Plain(ctx, raw, node, refs).Some?
    ensures NullOfPlain(ctx, node, Plain(ctx, raw, node, refs).value) && AnyOf !in node
  {
    PreparedFrame(ctx, node);
    PreparedPlain(ctx, node);
    var p := Prepared(ctx, node).value;
    var children := ConvertChildren(ctx, raw, p, refs).value;
    ChildrenNull(ctx, p, children);
    WholeNull(ctx, node, p, p + children);
  }

  // ----- unions -----

  lemma {:induction false} NonNullExact(variants: seq<Value>, x: Value)
    ensures x in NonNull(variants) <==> x in variants && x != Typed(NullType)
  {
    if variants != [] {
      NonNullExact(variants[1..], x);
      assert x in variants <==> x == variants[0] || x in variants[1..];
    }
  }

  /** The only variant of a union besides null. */
  lemma SingleVariant(anyOf: Value, branch: Value, nullable: bool, x: Value)
    requires UnionOf(anyOf) == Single(branch, nullable)
    ensures anyOf.Arr? && (nullable <==> Typed(NullType) in anyOf.items) && branch != Typed(NullType)
    ensures x in anyOf.items && x != Typed(NullType) <==> x == branch
  {
    var branches := NonNull(anyOf.items);
    assert branches[0] == branch && branch in branches;
    NonNullExact(anyOf.items, x);
    NonNullExact(anyOf.items, branch);
  }

  lemma ScalarVariants(anyOf: Value, nullable: bool, x: Value)
    requires UnionOf(anyOf) == Scalars(nullable)
    ensures anyOf.Arr? && (nullable <==> Typed(NullType) in anyOf.items)
    ensures x in anyOf.items && x != Typed(NullType) <==> x == Typed(IntegerType) || x == Typed(StringType)
  {
    TypedDiffer();
    NonNullExact(anyOf.items, x);
    TwoOf(NonNull(anyOf.items), Typed(IntegerType), Typed(StringType), x);
  }

  lemma TwoOf<T>(s: seq<T>, a: T, b: T, x: T)
    requires |s| == 2 && a in s && b in s && a != b
    ensures x in s <==> x == a || x == b
  {
  }

  lemma ScalarShaped(ctx: Context, t: Word, refs: set<string>)
    ensures Shaped(ctx, Typed(t), refs) && !TakesNull(ctx, Typed(t), refs)
  {
    var node := Typed(t).fields;
    assert Type in node && Ref !in node && AnyOf !in node && Nullable !in node && !node[Type].Arr?;
  }

  // ----- the rewrite -----

  lemma PlainNullSide(ctx: Context, raw: Value, refs: set<string>)
    requires raw.Dict? && Ref !in raw.fields && Plain(ctx, raw, raw.fields, refs).Some?
    ensures NullSide(ctx, raw, refs, Plain(ctx, raw, raw.fields, refs).value)
  {
    PlainNull(ctx, raw, raw.fields, refs);
  }

  lemma ScalarsNullSide(ctx: Context, raw: Value, refs: set<string>, nullable: bool)
    requires raw.Dict? && Ref !in raw.fields && AnyOf in raw.fields
    requires UnionOf(raw.fields[AnyOf]) == Scalars(nullable) && SameChildren(raw.fields, Marked(raw.fields, nullable))
    requires Plain(ctx, raw, Marked(raw.fields, nullable), refs).Some?
    ensures NullSide(ctx, raw, refs, Plain(ctx, raw, Marked(raw.fields, nullable), refs).value)
  {
    PlainNull(ctx, raw, Marked(raw.fields, nullable), refs);
    ScalarsTake(ctx, raw, refs, nullable);
  }

  /** A union of two scalars is shaped by them, and null only if it lists it. */
  lemma ScalarsTake(ctx: Context, raw: Value, refs: set<string>, nullable: bool)
    requires raw.Dict? && Ref !in raw.fields && AnyOf in raw.fields
    requires UnionOf(raw.fields[AnyOf]) == Scalars(nullable)
    ensures Shaped(ctx, raw, refs)
    ensures TakesNull(ctx, raw, refs)
            <==> nullable || On(ctx, raw.fields, Nullable)
                 || (Lookup(raw.fields, Type).Arr? && Str(NullType) in Lookup(raw.fields, Type).items)
  {
    ScalarVariants(raw.fields[AnyOf], nullable, Typed(IntegerType));
    ScalarShaped(ctx, IntegerType, refs);
    ScalarShaped(ctx, StringType, refs);
    TypedDiffer();
    forall x | x in raw.fields[AnyOf].items && x != Typed(NullType) ensures !TakesNull(ctx, x, refs) {
      ScalarVariants(raw.fields[AnyOf], nullable, x);
    }
  }

  /** A single variant decides for the union. */
  lemma SingleNullSide(ctx: Context, raw: Value, refs: set<string>, branch: Value, nullable: bool)
    requires raw.Dict? && Ref !in raw.fields && AnyOf in raw.fields
    requires UnionOf(raw.fields[AnyOf]) == Single(branch, nullable)
    ensures Shaped(ctx, raw, refs) <==> Shapes(ctx, raw.fields) || Shaped(ctx, branch, refs)
    ensures TakesNull(ctx, raw, refs)
            <==> nullable || On(ctx, raw.fields, Nullable)
                 || (Lookup(raw.fields, Type).Arr? && Str(NullType) in Lookup(raw.fields, Type).items)
                 || !Shaped(ctx, raw, refs) || TakesNull(ctx, branch, refs)
  {
    forall x ensures x in raw.fields[AnyOf].items && x != Typed(NullType) <==> x == branch {
      SingleVariant(raw.fields[AnyOf], branch, nullable, x);
    }
  }

  /** Without references, and with no union but the marker. */
  predicate Resolved(ctx: Context, node: Fields) {
    Ref !in node && (AnyOf in node ==> node[AnyOf] == INT_OR_STRING && On(ctx, node, IntOrString))
  }

  lemma NormalResolved(ctx: Context, node: Fields)
    requires Shape(ctx, node)
    ensures Resolved(ctx, node) && !Lookup(node, Type).Arr?
  {
    var body := node - {AnyOf};
    assert SameAt(body, node, Type) && SameAt(body, node, IntOrString) && SameAt(body, node, Ref);
  }

  lemma ResolvedNull(ctx: Context, node: Fields, refs: set<string>)
    requires Resolved(ctx, node)
    ensures Shaped(ctx, Dict(node), refs) <==> Shapes(ctx, node)
    ensures TakesNull(ctx, Dict(node), refs) <==> NullOfNode(ctx, node)
  {
    if AnyOf in node {
      TypedDiffer();
      ScalarShaped(ctx, IntegerType, refs);
      ScalarShaped(ctx, StringType, refs);
      assert forall x <- node[AnyOf].items :: x == Typed(IntegerType) || x == Typed(StringType);
    }
  }

  /** A flag is on after merging when it was on in one of the two. */
  lemma MergedOn(ctx: Context, left: Fields, right: Fields, key: Word)
    requires EquallyTrue(ctx) && Merged(ctx, left, right).Some? && !Annotation(key)
    ensures On(ctx, left + right, key) <==> On(ctx, left, key) || On(ctx, right, key)
  {
    if key in left && key in right { assert !Conflict(ctx, left, right, key); }
  }

  /** What a branch and the rest of its node are merged into. */
  ghost predicate MergedNull(ctx: Context, left: Fields, right: Fields, nullable: bool) {
    var m := Finally(left + right, nullable);
    && Resolved(ctx, m) && (Shapes(ctx, m) <==> Shapes(ctx, left) || Shapes(ctx, right))
    && (NullOfNode(ctx, m) <==>
        nullable || On(ctx, left, Nullable) || On(ctx, right, Nullable) || !Shapes(ctx, m))
  }

  lemma MergedIsNull(ctx: Context, left: Fields, right: Fields, nullable: bool)
    requires EquallyTrue(ctx) && Merged(ctx, left, right).Some?
    requires Resolved(ctx, left) && Resolved(ctx, right)
    requires !Lookup(left, Type).Arr? && !Lookup(right, Type).Arr?
    ensures MergedNull(ctx, left, right, nullable)
  {
    MergedOn(ctx, left, right, Nullable);
    MergedOn(ctx, left, right, IntOrString);
  }

  /** Null is accepted after the rewrite exactly where it was before, on all documents. */
  lemma {:induction false} NullExact(ctx: Context, raw: Value, refs: set<string>)
    requires EquallyTrue(ctx) && Convert(ctx, raw, refs).Some?
    ensures NullSide(ctx, raw, refs, Convert(ctx, raw, refs).value)
    decreases |ctx.definitions.Keys - refs|, Rank(raw), raw, 5
  {
    if Ref in raw.fields {
      var expansion := Expanded(ctx, raw.fields, refs).value;
      Fewer(ctx.definitions.Keys, refs, expansion.name);
      ExpandedBehind(ctx, raw.fields, refs);
      NullExact(ctx, Dict(expansion.fields), refs + {expansion.name});
    } else if AnyOf in raw.fields {
      match UnionOf(raw.fields[AnyOf])
      case Scalars(nullable) =>
        MarkedFrame(raw.fields, nullable);
        ScalarsNullSide(ctx, raw, refs, nullable);
      case Single(branch, nullable) => SingleNull(ctx, raw, refs, branch, nullable);
    } else {
      PlainNullSide(ctx, raw, refs);
    }
  }

  /** The compiled branch, and the rest that is compiled if it has a type. */
  lemma SidesResolved(ctx: Context, raw: Value, refs: set<string>, branch: Value, rest: Fields, left: Fields,
                      right: Fields)
    requires raw.Dict? && Ref !in raw.fields && rest == raw.fields - {AnyOf} && Convert(ctx, branch, refs) == Some(left)
    requires Some(right) == if Type in rest then Convert(ctx, Dict(rest), refs) else Some(rest)
    ensures Resolved(ctx, left) && Resolved(ctx, right)
    ensures !Lookup(left, Type).Arr? && !Lookup(right, Type).Arr?
  {
    ConvertNormal(ctx, branch, refs);
    NormalResolved(ctx, left);
    if Type in rest {
      ConvertNormal(ctx, Dict(rest), refs);
      NormalResolved(ctx, right);
    }
  }

  lemma {:induction false} SingleNull(ctx: Context, raw: Value, refs: set<string>, branch: Value, nullable: bool)
    requires raw.Dict? && Redex(raw.fields) && Ref !in raw.fields
    requires UnionOf(raw.fields[AnyOf]) == Single(branch, nullable)
    requires EquallyTrue(ctx) && ConvertSingle(ctx, raw, refs, branch, nullable).Some?
    ensures NullSide(ctx, raw, refs, ConvertSingle(ctx, raw, refs, branch, nullable).value)
    decreases |ctx.definitions.Keys - refs|, Rank(raw), raw, 2
  {
    var rest := raw.fields - {AnyOf};
    BranchRank(raw, branch);
    RankRest(raw.fields);
    NullExact(ctx, branch, refs);
    if Type in rest { NullExact(ctx, Dict(rest), refs); }
    var left := Convert(ctx, branch, refs).value;
    var right := if Type in rest then Convert(ctx, Dict(rest), refs).value else rest;
    SidesResolved(ctx, raw, refs, branch, rest, left, right);
    MergedIsNull(ctx, left, right, nullable);
    var m := Finally(left + right, nullable);
    SingleRank(raw, left, right, nullable);
    NullExact(ctx, Dict(m), refs);
    ResolvedNull(ctx, m, refs);
    SingleNullSide(ctx, raw, refs, branch, nullable);
    RestNull(ctx, raw.fields, rest, refs);
  }

  lemma RestNull(ctx: Context, node: Fields, rest: Fields, refs: set<string>)
    requires Ref !in node && rest == node - {AnyOf}
    ensures SameNull(ctx, rest, node)
    ensures Type in node ==> Shaped(ctx, Dict(rest), refs)
    ensures Type in node ==>
              (TakesNull(ctx, Dict(rest), refs)
              <==> On(ctx, node, Nullable) || (node[Type].Arr? && Str(NullType) in node[Type].items))
  {
    assert Resolved(ctx, rest);
    ResolvedNull(ctx, rest, refs);
  }

  /** The document is a union that lists null, or refers to one. */
  predicate NullUnion(ctx: Context, s: Value, refs: set<string>)
    decreases |ctx.definitions.Keys - refs|
  {
    && s.Dict?
    && if Ref in s.fields then
         match Behind(ctx, s.fields, refs)
         case None => false
         case Some(e) => Fewer(ctx.definitions.Keys, refs, e.name); NullUnion(ctx, Dict(e.fields), refs + {e.name})
       else
         AnyOf in s.fields && s.fields[AnyOf].Arr? && Typed(NullType) in s.fields[AnyOf].items
  }

  lemma NullableKept(ctx: Context, m: Fields, refs: set<string>)
    requires Resolved(ctx, m) && Lookup(m, Nullable) == YES && Convert(ctx, Dict(m), refs).Some?
    ensures Lookup(Convert(ctx, Dict(m), refs).value, Nullable) == YES
  {
    if AnyOf in m {
      MarkerIsScalars();
      MarkedFrame(m, false);
      PlainNull(ctx, Dict(m), Marked(m, false), refs);
    } else {
      PlainNull(ctx, Dict(m), m, refs);
    }
  }

  lemma SingleNullable(ctx: Context, raw: Value, refs: set<string>, branch: Value)
    requires raw.Dict? && Redex(raw.fields) && Ref !in raw.fields
    requires UnionOf(raw.fields[AnyOf]) == Single(branch, true)
    requires EquallyTrue(ctx) && ConvertSingle(ctx, raw, refs, branch, true).Some?
    ensures Lookup(ConvertSingle(ctx, raw, refs, branch, true).value, Nullable) == YES
  {
    var rest := raw.fields - {AnyOf};
    BranchRank(raw, branch);
    RankRest(raw.fields);
    var left := Convert(ctx, branch, refs).value;
    var right := if Type in rest then Convert(ctx, Dict(rest), refs).value else rest;
    SidesResolved(ctx, raw, refs, branch, rest, left, right);
    MergedOn(ctx, left, right, IntOrString);
    NullableKept(ctx, Finally(left + right, true), refs);
  }

  /** A union that lists null compiles to a nullable node, through every chain of references. */
  lemma {:induction false} NullUnionNullable(ctx: Context, raw: Value, refs: set<string>)
    requires EquallyTrue(ctx) && NullUnion(ctx, raw, refs) && Convert(ctx, raw, refs).Some?
    ensures Lookup(Convert(ctx, raw, refs).value, Nullable) == YES
    decreases |ctx.definitions.Keys - refs|
  {
    if Ref in raw.fields {
      var e := Expanded(ctx, raw.fields, refs).value;
      Fewer(ctx.definitions.Keys, refs, e.name);
      ExpandedBehind(ctx, raw.fields, refs);
      NullUnionNullable(ctx, Dict(e.fields), refs + {e.name});
    } else {
      match UnionOf(raw.fields[AnyOf])
      case Scalars(nullable) =>
        MarkedFrame(raw.fields, nullable);
        ScalarVariants(raw.fields[AnyOf], nullable, Null);
        PlainNull(ctx, raw, Marked(raw.fields, nullable), refs);
      case Single(branch, nullable) =>
        SingleVariant(raw.fields[AnyOf], branch, nullable, Null);
        SingleNullable(ctx, raw, refs, branch);
    }
  }
}
