/** What compiling keeps besides the accepted values: where unknown fields are preserved, and what
    is said about a value. */
module CrdKeep {
  import opened Wrappers
  import opened Crd
  import opened CrdConvert
  import opened CrdProofs
  import opened CrdStable
  import opened CrdNull

  // ----- unknown fields -----

  /** The node preserves unknown fields: it says so, allows any additional property, has a variant
      that preserves them, or says of no type at all. */
  predicate Opens(ctx: Context, s: Value, refs: set<string>)
    decreases |ctx.definitions.Keys - refs|, s
  {
    && s.Dict?
    && if Ref in s.fields then
         match Behind(ctx, s.fields, refs)
         case None => false
         case Some(e) => Fewer(ctx.definitions.Keys, refs, e.name); Opens(ctx, Dict(e.fields), refs + {e.name})
       else
         || On(ctx, s.fields, PreserveUnknown) || Lookup(s.fields, AdditionalProperties) == YES || !Shaped(ctx, s, refs)
         || (AnyOf in s.fields && s.fields[AnyOf].Arr?
             && exists x <- s.fields[AnyOf].items :: x != Typed(NullType) && Opens(ctx, x, refs))
  }

  predicate OpensNode(ctx: Context, node: Fields) {
    On(ctx, node, PreserveUnknown) || Lookup(node, AdditionalProperties) == YES || !Shapes(ctx, node)
  }

  predicate SameOpen(a: Fields, b: Fields) {
    SameAt(a, b, PreserveUnknown) && SameAt(a, b, Type) && SameAt(a, b, IntOrString)
  }

  lemma StagesOpen(ctx: Context, node: Fields, listed: Fields)
    requires TypeList(node).Some? && ConstEnum(ctx, TypeList(node).value) == Some(listed)
    ensures SameAt(listed, node, PreserveUnknown) && SameAt(listed, node, AdditionalProperties)
  {
  }

  lemma BoundsOpen(ctx: Context, node: Fields)
    ensures SameAt(Bounds(ctx, node), node, PreserveUnknown) && SameAt(Bounds(ctx, node), node, AdditionalProperties)
  {
  }

  lemma ShownOpen(ctx: Context, bounded: Fields)
    requires FirstExample(ctx, bounded - {UniqueItems}).Some?
    ensures var shown := FirstExample(ctx, bounded - {UniqueItems}).value;
            SameAt(shown, bounded, PreserveUnknown) && SameAt(shown, bounded, AdditionalProperties)
  {
  }

  lemma PreparedOpen(ctx: Context, node: Fields)
    requires Prepared(ctx, node).Some?
    ensures On(ctx, Prepared(ctx, node).value, PreserveUnknown)
            <==> On(ctx, node, PreserveUnknown) || Lookup(node, AdditionalProperties) == YES
  {
    var listed := ConstEnum(ctx, TypeList(node).value).value;
    StagesOpen(ctx, node, listed);
    BoundsOpen(ctx, listed);
    ShownOpen(ctx, Bounds(ctx, listed));
  }

  lemma CompletedOpen(ctx: Context, whole: Fields)
    requires Completed(ctx, whole).Some?
    ensures On(ctx, Completed(ctx, whole).value, PreserveUnknown)
            <==> On(ctx, whole, PreserveUnknown) || !Shapes(ctx, whole)
  {
  }

  lemma ChildrenApart(p: Fields, children: Fields)
    requires children.Keys <= {Properties, Items, AdditionalProperties}
    ensures SameOpen(p + children, p)
  {
  }

  ghost predicate OpenOfPlain(ctx: Context, node: Fields, r: Fields) {
    (On(ctx, r, PreserveUnknown) <==> OpensNode(ctx, node)) && !Lookup(r, AdditionalProperties).Bool?
  }

  lemma PlainOpens(ctx: Context, raw: Value, node: Fields, refs: set<string>)
    requires raw.Dict? && SameChildren(raw.fields, node) && Plain(ctx, raw, node, refs).Some?
    ensures OpenOfPlain(ctx, node, Plain(ctx, raw, node, refs).value)
  {
    PreparedFrame(ctx, node);
    PreparedPlain(ctx, node);
    PreparedOpen(ctx, node);
    PreparedNull(ctx, node);
    PlainNormal(ctx, raw, node, refs);
    var p := Prepared(ctx, node).value;
    var children := ConvertChildren(ctx, raw, p, refs).value;
    ChildrenApart(p, children);
    CompletedOpen(ctx, p + children);
    ShapeClosed(ctx, Plain(ctx, raw, node, refs).value);
  }

  lemma ShapeClosed(ctx: Context, node: Fields)
    requires Shape(ctx, node)
    ensures !Lookup(node, AdditionalProperties).Bool?
  {
    assert SameAt(node - {AnyOf}, node, AdditionalProperties);
  }

  /** What the rewrite must return for unknown fields. */
  ghost predicate OpenSide(ctx: Context, raw: Value, refs: set<string>, r: Fields) {
    (Opens(ctx, raw, refs) <==> On(ctx, r, PreserveUnknown)) && !Lookup(r, AdditionalProperties).Bool?
  }

  lemma TypedOpen(ctx: Context, t: Word, refs: set<string>)
    ensures !Opens(ctx, Typed(t), refs)
  {
    ScalarShaped(ctx, t, refs);
    var node := Typed(t).fields;
    assert Ref !in node && AnyOf !in node && PreserveUnknown !in node && AdditionalProperties !in node;
  }

  lemma ScalarsOpen(ctx: Context, raw: Value, refs: set<string>, nullable: bool)
    requires raw.Dict? && Ref !in raw.fields && AnyOf in raw.fields
    requires UnionOf(raw.fields[AnyOf]) == Scalars(nullable)
    ensures Opens(ctx, raw, refs) <==> OpensNode(ctx, Marked(raw.fields, nullable))
  {
    ScalarsTake(ctx, raw, refs, nullable);
    TypedOpen(ctx, IntegerType, refs);
    TypedOpen(ctx, StringType, refs);
    forall x | x in raw.fields[AnyOf].items && x != Typed(NullType) ensures !Opens(ctx, x, refs) {
      ScalarVariants(raw.fields[AnyOf], nullable, x);
    }
    assert On(ctx, Marked(raw.fields, nullable), IntOrString);
  }

  lemma SingleOpen(ctx: Context, raw: Value, refs: set<string>, branch: Value, nullable: bool)
    requires raw.Dict? && Ref !in raw.fields && AnyOf in raw.fields
    requires UnionOf(raw.fields[AnyOf]) == Single(branch, nullable)
    ensures Opens(ctx, raw, refs)
            <==> On(ctx, raw.fields, PreserveUnknown) || Lookup(raw.fields, AdditionalProperties) == YES
                 || !Shaped(ctx, raw, refs) || Opens(ctx, branch, refs)
  {
    forall x ensures x in raw.fields[AnyOf].items && x != Typed(NullType) <==> x == branch {
      SingleVariant(raw.fields[AnyOf], branch, nullable, x);
    }
  }

  lemma ResolvedOpen(ctx: Context, node: Fields, refs: set<string>)
    requires Resolved(ctx, node)
    ensures Opens(ctx, Dict(node), refs) <==> OpensNode(ctx, node)
  {
    ResolvedNull(ctx, node, refs);
    if AnyOf in node {
      TypedOpen(ctx, IntegerType, refs);
      TypedOpen(ctx, StringType, refs);
      assert forall x <- node[AnyOf].items :: x == Typed(IntegerType) || x == Typed(StringType);
    }
  }

  lemma JoinedOpens(ctx: Context, left: Fields, right: Fields, nullable: bool)
    requires EquallyTrue(ctx) && Merged(ctx, left, right).Some? && !Lookup(left, AdditionalProperties).Bool?
    ensures var m := Finally(left + right, nullable);
            && (On(ctx, m, PreserveUnknown) <==> On(ctx, left, PreserveUnknown) || On(ctx, right, PreserveUnknown))
            && (Lookup(m, AdditionalProperties) == YES <==> Lookup(right, AdditionalProperties) == YES)
  {
    MergedOn(ctx, left, right, PreserveUnknown);
  }

  /** Unknown fields are preserved after the rewrite exactly where they were before. */
  lemma {:induction false} OpenExact(ctx: Context, raw: Value, refs: set<string>)
    requires EquallyTrue(ctx) && Convert(ctx, raw, refs).Some?
    ensures OpenSide(ctx, raw, refs, Convert(ctx, raw, refs).value)
    decreases |ctx.definitions.Keys - refs|, Rank(raw), raw, 5
  {
    if Ref in raw.fields {
      var expansion := Expanded(ctx, raw.fields, refs).value;
      Fewer(ctx.definitions.Keys, refs, expansion.name);
      ExpandedBehind(ctx, raw.fields, refs);
      OpenExact(ctx, Dict(expansion.fields), refs + {expansion.name});
    } else if AnyOf in raw.fields {
      match UnionOf(raw.fields[AnyOf])
      case Scalars(nullable) =>
        MarkedFrame(raw.fields, nullable);
        PlainOpens(ctx, raw, Marked(raw.fields, nullable), refs);
        ScalarsOpen(ctx, raw, refs, nullable);
      case Single(branch, nullable) => OpenSingle(ctx, raw, refs, branch, nullable);
    } else {
      PlainOpens(ctx, raw, raw.fields, refs);
    }
  }

  lemma {:induction false} OpenSingle(ctx: Context, raw: Value, refs: set<string>, branch: Value, nullable: bool)
    requires raw.Dict? && Redex(raw.fields) && Ref !in raw.fields
    requires UnionOf(raw.fields[AnyOf]) == Single(branch, nullable)
    requires EquallyTrue(ctx) && ConvertSingle(ctx, raw, refs, branch, nullable).Some?
    ensures OpenSide(ctx, raw, refs, ConvertSingle(ctx, raw, refs, branch, nullable).value)
    decreases |ctx.definitions.Keys - refs|, Rank(raw), raw, 2
  {
    var rest := raw.fields - {AnyOf};
    BranchRank(raw, branch);
    RankRest(raw.fields);
    OpenExact(ctx, branch, refs);
    NullExact(ctx, branch, refs);
    if Type in rest { OpenExact(ctx, Dict(rest), refs); }
    var left := Convert(ctx, branch, refs).value;
    var right := if Type in rest then Convert(ctx, Dict(rest), refs).value else rest;
    SidesResolved(ctx, raw, refs, branch, rest, left, right);
    JoinedOpens(ctx, left, right, nullable);
    MergedIsNull(ctx, left, right, nullable);
    var m := Finally(left + right, nullable);
    SingleRank(raw, left, right, nullable);
    OpenExact(ctx, Dict(m), refs);
    ResolvedOpen(ctx, m, refs);
    SingleOpen(ctx, raw, refs, branch, nullable);
    SingleNullSide(ctx, raw, refs, branch, nullable);
    RestOpen(ctx, raw.fields, rest, refs);
  }

  lemma RestOpen(ctx: Context, node: Fields, rest: Fields, refs: set<string>)
    requires Ref !in node && rest == node - {AnyOf}
    ensures SameOpen(rest, node) && SameAt(rest, node, AdditionalProperties)
    ensures Type in node ==> (Opens(ctx, Dict(rest), refs)
                              <==> On(ctx, node, PreserveUnknown) || Lookup(node, AdditionalProperties) == YES)
  {
    assert Resolved(ctx, rest);
    ResolvedOpen(ctx, rest, refs);
  }

  // ----- what is said about a value -----

  /** Keywords that say something about a value and ask nothing of it. */
  predicate Said(w: Word) { w.Title? || w.Description? || w.Default? || w.PrinterColumn? }

  /** What the document says of its value under a keyword: beside the reference or the union, or
      else in the definition or the variant. */
  function Says(ctx: Context, s: Value, refs: set<string>, w: Word): Option<Value>
    decreases |ctx.definitions.Keys - refs|, s
  {
    if !s.Dict? then None
    else if Ref in s.fields then
      match Behind(ctx, s.fields, refs)
      case None => None
      case Some(e) => Fewer(ctx.definitions.Keys, refs, e.name); Says(ctx, Dict(e.fields), refs + {e.name}, w)
    else if w in s.fields then Some(s.fields[w])
    else if AnyOf in s.fields && s.fields[AnyOf].Arr? && |NonNull(s.fields[AnyOf].items)| == 1 then
      assert NonNull(s.fields[AnyOf].items)[0] in NonNull(s.fields[AnyOf].items);
      Says(ctx, NonNull(s.fields[AnyOf].items)[0], refs, w)
    else None
  }

  function Entry(node: Fields, w: Word): Option<Value> { if w in node then Some(node[w]) else None }

  lemma PlainSays(ctx: Context, raw: Value, node: Fields, refs: set<string>, w: Word)
    requires Said(w) && raw.Dict? && SameChildren(raw.fields, node) && Plain(ctx, raw, node, refs).Some?
    ensures Entry(Plain(ctx, raw, node, refs).value, w) == Entry(node, w)
  {
    PreparedFrame(ctx, node);
    PreparedPlain(ctx, node);
    PreparedSays(ctx, node, w);
    var p := Prepared(ctx, node).value;
    var children := ConvertChildren(ctx, raw, p, refs).value;
    assert SameAt(p + children, p, w);
    CompletedSays(ctx, p + children, w);
  }

  lemma CompletedSays(ctx: Context, whole: Fields, w: Word)
    requires Said(w) && Completed(ctx, whole).Some?
    ensures SameAt(Completed(ctx, whole).value, whole, w)
  {
  }

  lemma PreparedSays(ctx: Context, node: Fields, w: Word)
    requires Said(w) && Prepared(ctx, node).Some?
    ensures SameAt(Prepared(ctx, node).value, node, w)
  {
    var listed := ConstEnum(ctx, TypeList(node).value).value;
    ListsSay(ctx, node, w);
    ListsSay(ctx, TypeList(node).value, w);
    var lower := Bound(ctx, listed, ExclusiveMinimum, Minimum, true);
    BoundSays(ctx, listed, ExclusiveMinimum, Minimum, true, w);
    BoundSays(ctx, lower, ExclusiveMaximum, Maximum, false, w);
    ShownSays(ctx, Bounds(ctx, listed), w);
  }

  lemma ListsSay(ctx: Context, node: Fields, w: Word)
    requires Said(w)
    ensures TypeList(node).Some? ==> SameAt(TypeList(node).value, node, w)
    ensures ConstEnum(ctx, node).Some? ==> SameAt(ConstEnum(ctx, node).value, node, w)
  {
  }

  lemma BoundSays(ctx: Context, node: Fields, bound: Word, inclusive: Word, lower: bool, w: Word)
    requires w != bound && w != inclusive
    ensures SameAt(Bound(ctx, node, bound, inclusive, lower), node, w)
  {
  }

  lemma ShownSays(ctx: Context, bounded: Fields, w: Word)
    requires Said(w) && FirstExample(ctx, bounded - {UniqueItems}).Some?
    ensures SameAt(OpenObject(FirstExample(ctx, bounded - {UniqueItems}).value), bounded, w)
  {
    FirstExampleElsewhere(ctx, bounded - {UniqueItems});
  }

  lemma RefSays(ctx: Context, raw: Value, refs: set<string>, w: Word)
    requires raw.Dict? && Ref in raw.fields && Expanded(ctx, raw.fields, refs).Some?
    ensures var e := Expanded(ctx, raw.fields, refs).value;
            Says(ctx, raw, refs, w) == Says(ctx, Dict(e.fields), refs + {e.name}, w)
  {
    ExpandedBehind(ctx, raw.fields, refs);
  }

  lemma SingleIs(ctx: Context, raw: Value, refs: set<string>, branch: Value, nullable: bool, w: Word)
    requires raw.Dict? && Ref !in raw.fields && AnyOf in raw.fields
    requires UnionOf(raw.fields[AnyOf]) == Single(branch, nullable)
    ensures Says(ctx, raw, refs, w) == if w in raw.fields then Some(raw.fields[w]) else Says(ctx, branch, refs, w)
  {
    assert NonNull(raw.fields[AnyOf].items)[0] == branch;
  }

  lemma OthersSay(ctx: Context, raw: Value, refs: set<string>, w: Word)
    requires raw.Dict? && Ref !in raw.fields && (AnyOf in raw.fields ==> UnionOf(raw.fields[AnyOf]).Scalars?)
    ensures Says(ctx, raw, refs, w) == Entry(raw.fields, w)
  {
  }

  /** What the document says of its value is said by the compiled node. */
  lemma {:induction false} SaysKept(ctx: Context, raw: Value, refs: set<string>, w: Word)
    requires Said(w) && Convert(ctx, raw, refs).Some?
    ensures Entry(Convert(ctx, raw, refs).value, w) == Says(ctx, raw, refs, w)
    decreases |ctx.definitions.Keys - refs|, Rank(raw), raw, 5
  {
    if Ref in raw.fields {
      var expansion := Expanded(ctx, raw.fields, refs).value;
      Fewer(ctx.definitions.Keys, refs, expansion.name);
      RefSays(ctx, raw, refs, w);
      SaysKept(ctx, Dict(expansion.fields), refs + {expansion.name}, w);
    } else if AnyOf in raw.fields {
      match UnionOf(raw.fields[AnyOf])
      case Scalars(nullable) =>
        OthersSay(ctx, raw, refs, w);
        MarkedFrame(raw.fields, nullable);
        MarkedSays(raw.fields, nullable, w);
        PlainSays(ctx, raw, Marked(raw.fields, nullable), refs, w);
      case Single(branch, nullable) => SingleSays(ctx, raw, refs, branch, nullable, w);
    } else {
      OthersSay(ctx, raw, refs, w);
      PlainSays(ctx, raw, raw.fields, refs, w);
    }
  }

  lemma MarkedSays(node: Fields, nullable: bool, w: Word)
    requires Said(w)
    ensures Entry(Marked(node, nullable), w) == Entry(node, w)
  {
  }

  lemma JoinedSays(left: Fields, right: Fields, nullable: bool, w: Word)
    requires Said(w)
    ensures Entry(Finally(left + right, nullable), w) == if w in right then Entry(right, w) else Entry(left, w)
  {
  }

  lemma {:induction false} SingleSays(ctx: Context, raw: Value, refs: set<string>, branch: Value, nullable: bool,
                                      w: Word)
    requires Said(w) && raw.Dict? && Redex(raw.fields) && Ref !in raw.fields
    requires UnionOf(raw.fields[AnyOf]) == Single(branch, nullable)
    requires ConvertSingle(ctx, raw, refs, branch, nullable).Some?
    ensures Entry(ConvertSingle(ctx, raw, refs, branch, nullable).value, w) == Says(ctx, raw, refs, w)
    decreases |ctx.definitions.Keys - refs|, Rank(raw), raw, 2
  {
    var rest := raw.fields - {AnyOf};
    BranchRank(raw, branch);
    RankRest(raw.fields);
    SaysKept(ctx, branch, refs, w);
    var left := Convert(ctx, branch, refs).value;
    var right := if Type in rest then Convert(ctx, Dict(rest), refs).value else rest;
    assert Entry(right, w) == Entry(raw.fields, w) by {
      OthersSay(ctx, Dict(rest), refs, w);
      if Type in rest { SaysKept(ctx, Dict(rest), refs, w); }
    }
    assert Says(ctx, raw, refs, w) == if w in right then Entry(right, w) else Entry(left, w) by {
      SingleIs(ctx, raw, refs, branch, nullable, w);
    }
    SidesResolved(ctx, raw, refs, branch, rest, left, right);
    JoinedSays(left, right, nullable, w);
    SingleRank(raw, left, right, nullable);
    MergedSays(ctx, raw, left, right, nullable, refs, w);
  }

  lemma {:induction false} MergedSays(ctx: Context, raw: Value, left: Fields, right: Fields, nullable: bool,
                                      refs: set<string>, w: Word)
    requires Said(w) && raw.Dict? && Redex(raw.fields) && Resolved(ctx, left) && Resolved(ctx, right)
    requires Rank(Dict(Finally(left + right, nullable))) < Rank(raw)
    requires Convert(ctx, Dict(Finally(left + right, nullable)), refs).Some?
    ensures Entry(Convert(ctx, Dict(Finally(left + right, nullable)), refs).value, w)
            == Entry(Finally(left + right, nullable), w)
    decreases |ctx.definitions.Keys - refs|, Rank(raw), raw, 1
  {
    var m := Finally(left + right, nullable);
    MarkerIsScalars();
    OthersSay(ctx, Dict(m), refs, w);
    SaysKept(ctx, Dict(m), refs, w);
  }
}
