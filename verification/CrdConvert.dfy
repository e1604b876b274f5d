/** The recursive rewrite. It calls itself on its own merged output, so what decreases is: the
    definitions not yet expanded, then the depth of nested unions, then the document. */
module CrdConvert {
  import opened Wrappers
  import opened Crd

  predicate SameAt(a: Fields, b: Fields, key: Word) { (key in a <==> key in b) && (key in a ==> a[key] == b[key]) }

  predicate SameChildren(a: Fields, b: Fields) {
    SameAt(a, b, Properties) && SameAt(a, b, Items) && SameAt(a, b, AdditionalProperties)
  }

  // ----- ranks -----

  lemma RankAtMost(s: Value, n: nat)
    requires Bounded(s, n)
    ensures Rank(s) <= n
  {
  }

  lemma RankChildren(s: Value)
    requires s.Dict?
    ensures var node := s.fields;
            && (Properties in node && node[Properties].Dict? ==>
                  forall k <- node[Properties].fields :: Rank(node[Properties].fields[k]) <= Rank(s))
            && (Items in node ==> Rank(node[Items]) <= Rank(s))
            && (AdditionalProperties in node ==> Rank(node[AdditionalProperties]) <= Rank(s))
            && (Redex(node) && node[AnyOf].Arr? ==> forall v <- node[AnyOf].items :: Rank(v) < Rank(s))
  {
    var node := s.fields;
    assert Bounded(s, Rank(s));
    var n := if Redex(node) then Rank(s) - 1 else Rank(s);
    assert Inside(s, n);
    if Properties in node && node[Properties].Dict? {
      forall k <- node[Properties].fields
        ensures Rank(node[Properties].fields[k]) <= Rank(s)
      {
        RankAtMost(node[Properties].fields[k], n);
      }
    }
    if Items in node { RankAtMost(node[Items], n); }
    if AdditionalProperties in node { RankAtMost(node[AdditionalProperties], n); }
    if Redex(node) && node[AnyOf].Arr? {
      forall v <- node[AnyOf].items ensures Rank(v) < Rank(s) { RankAtMost(v, n); }
    }
  }

  /** Taking the union out of a node lowers its rank. */
  lemma RankRest(node: Fields)
    requires Redex(node)
    ensures Rank(Dict(node)) > 0 && Bounded(Dict(node - {AnyOf}), Rank(Dict(node)) - 1)
    ensures Rank(Dict(node - {AnyOf})) < Rank(Dict(node))
  {
    var rest := Dict(node - {AnyOf});
    assert Bounded(Dict(node), Rank(Dict(node)));
    assert Inside(Dict(node), Rank(Dict(node)) - 1);
    assert Inside(rest, Rank(Dict(node)) - 1);
    RankAtMost(rest, Rank(Dict(node)) - 1);
  }

  lemma ResolvedUp(node: Fields, n: nat)
    requires Bounded(Dict(node), 0) || (AnyOf !in node && Bounded(Dict(node), n))
    ensures !Redex(node) && Inside(Dict(node), n)
  {
    if Bounded(Dict(node), 0) { InsideUp(Dict(node), 0, n); }
  }

  function Finally(merged: Fields, nullable: bool): Fields { if nullable then merged[Nullable := YES] else merged }

  /** What the branch and the rest of the node are merged into ranks below the node. */
  lemma RankMerged(a: Fields, b: Fields, nullable: bool, n: nat)
    requires !Redex(a) && !Redex(b) && Inside(Dict(a), n) && Inside(Dict(b), n)
    ensures Rank(Dict(Finally(a + b, nullable))) <= n
  {
    var merged := Dict(Finally(a + b, nullable));
    assert Inside(merged, n);
    RankAtMost(merged, n);
  }

  // ----- preparing a node leaves its children alone -----

  lemma ListsFrame(ctx: Context, node: Fields)
    ensures TypeList(node).Some? ==> SameChildren(TypeList(node).value, node)
    ensures ConstEnum(ctx, node).Some? ==> SameChildren(ConstEnum(ctx, node).value, node)
  {
  }

  lemma BoundFrame(ctx: Context, node: Fields, bound: Word, inclusive: Word, lower: bool)
    requires bound !in {Properties, Items, AdditionalProperties}
             && inclusive !in {Properties, Items, AdditionalProperties}
    ensures SameChildren(Bound(ctx, node, bound, inclusive, lower), node)
  {
  }

  lemma FirstExampleFrame(ctx: Context, node: Fields)
    requires FirstExample(ctx, node).Some?
    ensures SameChildren(FirstExample(ctx, node).value, node)
  {
  }

  lemma MarkedFrame(node: Fields, nullable: bool)
    ensures SameChildren(node, Marked(node, nullable))
  {
  }

  lemma OpenObjectFrame(node: Fields)
    ensures var p := OpenObject(node);
            SameAt(p, node, Properties) && SameAt(p, node, Items)
            && (Lookup(p, AdditionalProperties).Dict? ==> SameAt(p, node, AdditionalProperties))
  {
  }

  lemma PreparedFrame(ctx: Context, node: Fields)
    requires Prepared(ctx, node).Some?
    ensures var p := Prepared(ctx, node).value;
            && SameAt(p, node, Properties) && SameAt(p, node, Items)
            && (Lookup(p, AdditionalProperties).Dict? ==> SameAt(p, node, AdditionalProperties))
  {
    var typed := TypeList(node).value;
    ListsFrame(ctx, node);
    var enumerated := ConstEnum(ctx, typed).value;
    ListsFrame(ctx, typed);
    var lower := Bound(ctx, enumerated, ExclusiveMinimum, Minimum, true);
    BoundFrame(ctx, enumerated, ExclusiveMinimum, Minimum, true);
    BoundFrame(ctx, lower, ExclusiveMaximum, Maximum, false);
    var bounded := Bounds(ctx, enumerated);
    assert SameChildren(bounded - {UniqueItems}, bounded);
    FirstExampleFrame(ctx, bounded - {UniqueItems});
    OpenObjectFrame(FirstExample(ctx, bounded - {UniqueItems}).value);
  }

  // ----- the rewrite -----

  function Wrapped(key: Word, converted: Option<Fields>): (r: Option<Fields>)
    ensures r.Some? ==> converted.Some? && r.value == map[key := Dict(converted.value)]
  {
    match converted
    case None => None
    case Some(fields) => Some(map[key := Dict(fields)])
  }

  function Convert(ctx: Context, raw: Value, refs: set<string>): (r: Option<Fields>)
    ensures r.Some? ==> Bounded(Dict(r.value), 0)
    decreases |ctx.definitions.Keys - refs|, Rank(raw), raw, 5
  {
    if !raw.Dict? then None
    else if Ref in raw.fields then
      var expansion := Expanded(ctx, raw.fields, refs);
      if expansion.None? then None
      else
        var name := expansion.value.name;
        Fewer(ctx.definitions.Keys, refs, name);
        Convert(ctx, Dict(expansion.value.fields), refs + {name})
    else if AnyOf in raw.fields then
      match UnionOf(raw.fields[AnyOf])
      case Bad => None
      case Scalars(nullable) => MarkedFrame(raw.fields, nullable); Plain(ctx, raw, Marked(raw.fields, nullable), refs)
      case Single(branch, nullable) => ConvertSingle(ctx, raw, refs, branch, nullable)
    else Plain(ctx, raw, raw.fields, refs)
  }

  lemma Fewer<T>(names: set<T>, refs: set<T>, name: T)
    requires name in names && name !in refs
    ensures |names - (refs + {name})| < |names - refs|
  {
    assert names - refs == (names - (refs + {name})) + {name};
  }

  lemma BranchRank(raw: Value, branch: Value)
    requires raw.Dict? && Redex(raw.fields) && raw.fields[AnyOf].Arr? && branch in raw.fields[AnyOf].items
    ensures Rank(branch) < Rank(raw)
  {
    RankChildren(raw);
  }

  lemma SingleRank(raw: Value, left: Fields, right: Fields, nullable: bool)
    requires raw.Dict? && Redex(raw.fields) && Bounded(Dict(left), 0)
    requires Bounded(Dict(right), 0) || right == raw.fields - {AnyOf}
    ensures Rank(Dict(Finally(left + right, nullable))) < Rank(raw)
  {
    RankRest(raw.fields);
    ResolvedUp(left, Rank(raw) - 1);
    ResolvedUp(right, Rank(raw) - 1);
    RankMerged(left, right, nullable, Rank(raw) - 1);
  }

  /** A union with one branch: the branch and the rest are converted, merged and converted again. */
  function ConvertSingle(ctx: Context, raw: Value, refs: set<string>, branch: Value,
                         nullable: bool): (r: Option<Fields>)
    requires raw.Dict? && Redex(raw.fields) && raw.fields[AnyOf].Arr? && branch in raw.fields[AnyOf].items
    ensures r.Some? ==> Bounded(Dict(r.value), 0)
    decreases |ctx.definitions.Keys - refs|, Rank(raw), raw, 2
  {
    var rest := raw.fields - {AnyOf};
    BranchRank(raw, branch);
    RankRest(raw.fields);
    var left := Convert(ctx, branch, refs);
    var right := if Type in rest then Convert(ctx, Dict(rest), refs) else Some(rest);
    if left.None? || right.None? then None
    else
      var merged := Merged(ctx, left.value, right.value);
      if merged.None? then None
      else
        SingleRank(raw, left.value, right.value, nullable);
        Convert(ctx, Dict(Finally(merged.value, nullable)), refs)
  }

  /** The properties that a node will have; an embedded resource has its metadata. */
  function FieldNames(raw: Value, embedded: bool): set<Word> {
    FieldsOf(Lookup(FieldsOf(raw), Properties)).Keys + (if embedded then {Metadata} else {})
  }

  function ConvertField(ctx: Context, raw: Value, refs: set<string>, embedded: bool, k: Word): (r: Option<Value>)
    requires raw.Dict? && Properties in raw.fields && raw.fields[Properties].Dict? && k in FieldNames(raw, embedded)
    ensures r.Some? ==> Bounded(r.value, 0)
    decreases |ctx.definitions.Keys - refs|, Rank(raw), raw, 0
  {
    RankChildren(raw);
    if embedded && k == Metadata then Some(Typed(ObjectType))
    else
      match Convert(ctx, raw.fields[Properties].fields[k], refs)
      case None => None
      case Some(fields) => Some(Dict(fields))
  }

  function ConvertFields(ctx: Context, raw: Value, refs: set<string>, embedded: bool): (r: Option<Fields>)
    requires raw.Dict? && Properties in raw.fields && raw.fields[Properties].Dict?
    ensures r.Some? ==> forall k <- r.value :: Bounded(r.value[k], 0)
    decreases |ctx.definitions.Keys - refs|, Rank(raw), raw, 1
  {
    var names := FieldNames(raw, embedded);
    if exists k <- names :: ConvertField(ctx, raw, refs, embedded, k).None? then None
    else Some(map k | k in names :: ConvertField(ctx, raw, refs, embedded, k).value)
  }

  lemma AllConverted(ctx: Context, out: Value, refs: set<string>, embedded: bool, props: Fields)
    requires out.Dict? && Properties in out.fields && out.fields[Properties].Dict?
             && FieldNames(out, embedded) == props.Keys
    requires forall k <- props :: ConvertField(ctx, out, refs, embedded, k) == Some(props[k])
    ensures ConvertFields(ctx, out, refs, embedded) == Some(props)
  {
    var r := ConvertFields(ctx, out, refs, embedded);
    assert r.Some? && r.value == props;
  }

  lemma SomeRefused(ctx: Context, out: Value, refs: set<string>, embedded: bool, k: Word)
    requires out.Dict? && Properties in out.fields && out.fields[Properties].Dict? && k in FieldNames(out, embedded)
    requires ConvertField(ctx, out, refs, embedded, k).None?
    ensures ConvertFields(ctx, out, refs, embedded) == None
  {
  }

  /** Replacements for exactly the children of a prepared node, all resolved. */
  predicate ChildrenOf(p: Fields, children: Fields) {
    && children.Keys <= {Properties, Items, AdditionalProperties} && Inside(Dict(children), 0)
    && (Properties in p <==> Properties in children) && (Items in p <==> Items in children)
    && (Lookup(p, AdditionalProperties).Dict? <==> AdditionalProperties in children)
  }

  predicate Only(children: Fields, key: Word, wanted: bool) {
    children.Keys == (if wanted then {key} else {}) && Inside(Dict(children), 0)
  }

  lemma Joined(p: Fields, extra: Fields, props: Fields, items: Fields)
    requires Only(extra, AdditionalProperties, Lookup(p, AdditionalProperties).Dict?)
    requires Only(props, Properties, Properties in p) && Only(items, Items, Items in p)
    ensures ChildrenOf(p, extra + props + items)
  {
    var children := extra + props + items;
    assert SameAt(children, extra, AdditionalProperties) && SameAt(children, props, Properties)
           && SameAt(children, items, Items);
  }

  function ConvertExtra(ctx: Context, raw: Value, p: Fields, refs: set<string>): (r: Option<Fields>)
    requires raw.Dict? && (Lookup(p, AdditionalProperties).Dict? ==> SameAt(p, raw.fields, AdditionalProperties))
    ensures r.Some? ==> Only(r.value, AdditionalProperties, Lookup(p, AdditionalProperties).Dict?)
    decreases |ctx.definitions.Keys - refs|, Rank(raw), raw, 2
  {
    RankChildren(raw);
    if !Lookup(p, AdditionalProperties).Dict? then Some(map[])
    else if On(ctx, p, Properties) then None
    else Wrapped(AdditionalProperties, Convert(ctx, p[AdditionalProperties], refs))
  }

  /** An embedded resource gets an open metadata. */
  function ConvertProps(ctx: Context, raw: Value, p: Fields, refs: set<string>): (r: Option<Fields>)
    requires raw.Dict? && SameAt(p, raw.fields, Properties)
    ensures r.Some? ==> Only(r.value, Properties, Properties in p)
    decreases |ctx.definitions.Keys - refs|, Rank(raw), raw, 2
  {
    if Properties !in p then Some(map[])
    else if !p[Properties].Dict? then None
    else Wrapped(Properties, ConvertFields(ctx, raw, refs, On(ctx, p, EmbeddedResource)))
  }

  function ConvertItems(ctx: Context, raw: Value, p: Fields, refs: set<string>): (r: Option<Fields>)
    requires raw.Dict? && SameAt(p, raw.fields, Items)
    ensures r.Some? ==> Only(r.value, Items, Items in p)
    decreases |ctx.definitions.Keys - refs|, Rank(raw), raw, 2
  {
    RankChildren(raw);
    if Items !in p then Some(map[]) else Wrapped(Items, Convert(ctx, p[Items], refs))
  }

  /** The converted children of a prepared node. */
  function ConvertChildren(ctx: Context, raw: Value, p: Fields, refs: set<string>): (r: Option<Fields>)
    requires raw.Dict? && SameAt(p, raw.fields, Properties) && SameAt(p, raw.fields, Items)
    requires Lookup(p, AdditionalProperties).Dict? ==> SameAt(p, raw.fields, AdditionalProperties)
    ensures r.Some? ==> ChildrenOf(p, r.value)
    decreases |ctx.definitions.Keys - refs|, Rank(raw), raw, 3
  {
    var extra, props, items := ConvertExtra(ctx, raw, p, refs), ConvertProps(ctx, raw, p, refs),
        ConvertItems(ctx, raw, p, refs);
    if extra.None? || props.None? || items.None? then None
    else
      Joined(p, extra.value, props.value, items.value);
      Some(extra.value + props.value + items.value)
  }

  /** A node without references and unions. */
  function Plain(ctx: Context, raw: Value, node: Fields, refs: set<string>): (r: Option<Fields>)
    requires raw.Dict? && SameChildren(raw.fields, node)
    ensures r.Some? ==> Bounded(Dict(r.value), 0)
    decreases |ctx.definitions.Keys - refs|, Rank(raw), raw, 4
  {
    var p := Prepared(ctx, node);
    if p.None? then None
    else
      PreparedFrame(ctx, node);
      PreparedPlain(ctx, node);
      var children := ConvertChildren(ctx, raw, p.value, refs);
      if children.None? then None
      else
        CompletedResolved(ctx, p.value, children.value);
        Completed(ctx, p.value + children.value)
  }

  lemma PreparedPlain(ctx: Context, node: Fields)
    requires Prepared(ctx, node).Some?
    ensures var p := Prepared(ctx, node).value;
            AnyOf !in p && !Lookup(p, AdditionalProperties).Bool?
  {
  }

  lemma CompletedResolved(ctx: Context, p: Fields, children: Fields)
    requires AnyOf !in p && ChildrenOf(p, children)
    ensures var r := Completed(ctx, p + children); r.Some? ==> Bounded(Dict(r.value), 0)
  {
    var r := Completed(ctx, p + children);
    if r.Some? {
      assert SameAt(r.value, p + children, Properties) && SameAt(r.value, p + children, Items)
             && SameAt(r.value, p + children, AdditionalProperties);
      assert !Redex(r.value);
      assert Inside(Dict(r.value), 0);
    }
  }
}
