/** The rewrite as it edits its copy of a node, key by key, proved to compute `Convert`. */
module CrdCompile {
  import opened Wrappers
  import opened Crd
  import opened CrdConvert

  method Merge(ctx: Context, base: Fields, extra: Fields) returns (r: Option<Fields>)
    ensures r == Merged(ctx, base, extra)
  {
    var merged, left := base, extra.Keys;
    while left != {}
      invariant left <= extra.Keys && merged == base + (extra - left)
      invariant forall k <- extra.Keys - left :: !Conflict(ctx, base, extra, k)
      decreases left
    {
      var key :| key in left;
      assert key in merged ==> key in base && merged[key] == base[key];
      if key in merged && !ctx.same(merged[key], extra[key]) && !Annotation(key) {
        assert Conflict(ctx, base, extra, key);
        return None;
      }
      merged := merged[key := extra[key]];
      left := left - {key};
    }
    assert extra - left == extra;
    r := Some(merged);
  }

  /** The keywords that are rewritten in place, one after the other. */
  method Prepare(ctx: Context, raw: Fields) returns (r: Option<Fields>)
    ensures r == Prepared(ctx, raw)
  {
    var node := raw;
    if Type in node && node[Type].Arr? {
      var types := node[Type].items;
      var nonNull := NonNullTypes(types);
      if Str(NullType) !in types || |nonNull| != 1 { return None; }
      node := node[Type := nonNull[0]];
      node := node[Nullable := YES];
    }
    if Const in node {
      var value := node[Const];
      if Enum in node && !(node[Enum].Arr? && Contains(ctx, node[Enum].items, value)) { return None; }
      node := (node - {Const})[Enum := Arr([value])];
    }
    var bounds := [(ExclusiveMinimum, Minimum, true), (ExclusiveMaximum, Maximum, false)];
    ghost var start := node;
    for i := 0 to 2
      invariant node == if i == 0 then start else if i == 1 then Bound(ctx, start, ExclusiveMinimum, Minimum, true)
                else Bounds(ctx, start)
    {
      var (bound, inclusive, lower) := bounds[i];
      var value := Lookup(node, bound);
      if !value.Null? && !value.Bool? {
        if inclusive in node
          && (if lower then ctx.above(node[inclusive], value) else ctx.above(value, node[inclusive])) {
          node := node - {bound};
        } else {
          node := node[inclusive := value][bound := YES];
        }
      }
    }
    if On(ctx, node, UniqueItems) { return None; }
    var shown := FirstExample(ctx, node - {UniqueItems});
    if shown.None? || !Acceptable(shown.value) { return None; }
    r := Some(OpenObject(shown.value));
  }

  method CompileFields(ctx: Context, raw: Value, refs: set<string>, embedded: bool) returns (r: Option<Fields>)
    requires raw.Dict? && Properties in raw.fields && raw.fields[Properties].Dict?
    ensures r == ConvertFields(ctx, raw, refs, embedded)
    decreases |ctx.definitions.Keys - refs|, Rank(raw), raw, 1
  {
    RankChildren(raw);
    var props := raw.fields[Properties].fields;
    var names := props.Keys + (if embedded then {Metadata} else {});
    assert names == FieldNames(raw, embedded);
    var done: Fields, left := map[], names;
    while left != {}
      invariant left <= names && done.Keys == names - left
      invariant forall k <- done :: k in names && ConvertField(ctx, raw, refs, embedded, k) == Some(done[k])
      decreases left
    {
      var name :| name in left;
      if embedded && name == Metadata {
        done := done[name := Typed(ObjectType)];
      } else {
        var child := Compile(ctx, props[name], refs);
        if child.None? {
          SomeRefused(ctx, raw, refs, embedded, name);
          return None;
        }
        done := done[name := Dict(child.value)];
      }
      left := left - {name};
    }
    AllConverted(ctx, raw, refs, embedded, done);
    r := Some(done);
  }

  method CompileExtra(ctx: Context, raw: Value, p: Fields, refs: set<string>) returns (r: Option<Fields>)
    requires raw.Dict? && (Lookup(p, AdditionalProperties).Dict? ==> SameAt(p, raw.fields, AdditionalProperties))
    ensures r == ConvertExtra(ctx, raw, p, refs)
    decreases |ctx.definitions.Keys - refs|, Rank(raw), raw, 2
  {
    if !Lookup(p, AdditionalProperties).Dict? { return Some(map[]); }
    if On(ctx, p, Properties) { return None; }
    RankChildren(raw);
    var child := Compile(ctx, p[AdditionalProperties], refs);
    r := Wrapped(AdditionalProperties, child);
  }

  method CompileProps(ctx: Context, raw: Value, p: Fields, refs: set<string>) returns (r: Option<Fields>)
    requires raw.Dict? && SameAt(p, raw.fields, Properties)
    ensures r == ConvertProps(ctx, raw, p, refs)
    decreases |ctx.definitions.Keys - refs|, Rank(raw), raw, 2
  {
    if Properties !in p { return Some(map[]); }
    if !p[Properties].Dict? { return None; }
    var fields := CompileFields(ctx, raw, refs, On(ctx, p, EmbeddedResource));
    r := Wrapped(Properties, fields);
  }

  method CompileItems(ctx: Context, raw: Value, p: Fields, refs: set<string>) returns (r: Option<Fields>)
    requires raw.Dict? && SameAt(p, raw.fields, Items)
    ensures r == ConvertItems(ctx, raw, p, refs)
    decreases |ctx.definitions.Keys - refs|, Rank(raw), raw, 2
  {
    if Items !in p { return Some(map[]); }
    RankChildren(raw);
    var child := Compile(ctx, p[Items], refs);
    r := Wrapped(Items, child);
  }

  method CompilePlain(ctx: Context, raw: Value, node: Fields, refs: set<string>) returns (r: Option<Fields>)
    requires raw.Dict? && SameChildren(raw.fields, node)
    ensures r == Plain(ctx, raw, node, refs)
    decreases |ctx.definitions.Keys - refs|, Rank(raw), raw, 4
  {
    var p := Prepare(ctx, node);
    if p.None? { return None; }
    PreparedFrame(ctx, node);
    var extra := CompileExtra(ctx, raw, p.value, refs);
    var props := CompileProps(ctx, raw, p.value, refs);
    var items := CompileItems(ctx, raw, p.value, refs);
    if extra.None? || props.None? || items.None? { return None; }
    var children := extra.value + props.value + items.value;
    assert ConvertChildren(ctx, raw, p.value, refs) == Some(children);
    r := Completed(ctx, p.value + children);
  }

  method Compile(ctx: Context, raw: Value, refs: set<string>) returns (r: Option<Fields>)
    ensures r == Convert(ctx, raw, refs)
    decreases |ctx.definitions.Keys - refs|, Rank(raw), raw, 5
  {
    if !raw.Dict? { return None; }
    var node := raw.fields;
    if Ref in node {
      var ref := node[Ref];
      node := node - {Ref};
      var name := Target(ref);
      if name.None? || name.value in refs || name.value !in ctx.definitions { return None; }
      if !ctx.definitions[name.value].Dict? { return None; }
      var expanded := Merge(ctx, ctx.definitions[name.value].fields, node);
      if expanded.None? { return None; }
      Fewer(ctx.definitions.Keys, refs, name.value);
      r := Compile(ctx, Dict(expanded.value), refs + {name.value});
    } else if AnyOf in node {
      match UnionOf(node[AnyOf])
      case Bad => r := None;
      case Single(branch, nullable) => r := CompileSingle(ctx, raw, refs, branch, nullable);
      case Scalars(nullable) =>
        MarkedFrame(node, nullable);
        node := (node - {AnyOf})[IntOrString := YES];
        if nullable { node := node[Nullable := YES]; }
        r := CompilePlain(ctx, raw, node, refs);
    } else {
      r := CompilePlain(ctx, raw, node, refs);
    }
  }

  method CompileSingle(ctx: Context, raw: Value, refs: set<string>, branch: Value, nullable: bool)
    returns (r: Option<Fields>)
    requires raw.Dict? && Redex(raw.fields) && raw.fields[AnyOf].Arr? && branch in raw.fields[AnyOf].items
    ensures r == ConvertSingle(ctx, raw, refs, branch, nullable)
    decreases |ctx.definitions.Keys - refs|, Rank(raw), raw, 2
  {
    var rest := raw.fields - {AnyOf};
    BranchRank(raw, branch);
    RankRest(raw.fields);
    var left := Compile(ctx, branch, refs);
    if left.None? { return None; }
    var right := Some(rest);
    if Type in rest { right := Compile(ctx, Dict(rest), refs); }
    if right.None? { return None; }
    var merged := Merge(ctx, left.value, right.value);
    if merged.None? { return None; }
    SingleRank(raw, left.value, right.value, nullable);
    var result := merged.value;
    if nullable { result := result[Nullable := YES]; }
    r := Compile(ctx, Dict(result), refs);
  }
}
