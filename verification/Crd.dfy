/** The schema compiler: JSON Schema with references and unions becomes a structural schema.

    Strings that the compiler looks at are constructors of `Word`; every other string is `Other`.
    None stands for a raised error. */
module Crd {
  import opened Wrappers
  import opened JsonPatch

  datatype Word =
    // keywords that never remain
    | Ref | Const | Examples | UniqueItems
    // the union keyword
    | AnyOf
    // supported keywords
    | Type | Properties | Items | AdditionalProperties | Required | Nullable | Title | Description | Default | Enum
    | Format | Pattern | Minimum | Maximum | ExclusiveMinimum | ExclusiveMaximum | MultipleOf | MinLength | MaxLength
    | MinItems | MaxItems | MinProperties | MaxProperties | Example | ExternalDocs | PrinterColumn
    | PreserveUnknown | EmbeddedResource | IntOrString | ListType | ListMapKeys | MapType | Validations
    // other words with a meaning
    | NullType | ObjectType | ArrayType | StringType | NumberType | IntegerType | BooleanType
    | Atomic | Granular | SetList | MapList | Metadata | Rule
    | Other(text: string)

  datatype Value =
    | Null
    | Bool(b: bool)
    | Num(text: string)
    | Str(word: Word)
    | Arr(items: seq<Value>)
    | Dict(fields: Fields)

  type Fields = map<Word, Value>

  /** The definitions, and what Python decides about values: equality, order, blank text, zero. */
  datatype Context = Context(
    definitions: map<string, Value>,
    same: (Value, Value) -> bool,
    above: (Value, Value) -> bool,
    blank: string -> bool,
    zero: string -> bool)

  predicate Keyword(w: Word) {
    !(w.Ref? || w.Const? || w.Examples? || w.UniqueItems? || w.AnyOf?
      || w.NullType? || w.ObjectType? || w.ArrayType? || w.StringType? || w.NumberType? || w.IntegerType?
         || w.BooleanType?
      || w.Atomic? || w.Granular? || w.SetList? || w.MapList? || w.Metadata? || w.Rule? || w.Other?)
  }

  predicate Annotation(w: Word) { w.Title? || w.Description? || w.Default? || w.Example? || w.PrinterColumn? }

  const YES := Bool(true)

  function Typed(t: Word): Value { Dict(map[Type := Str(t)]) }

  const INT_OR_STRING := Arr([Typed(IntegerType), Typed(StringType)])

  predicate Truthy(ctx: Context, v: Value) {
    match v
    case Null => false
    case Bool(b) => b
    case Num(text) => !ctx.zero(text)
    case Str(word) => word != Other("")
    case Arr(items) => items != []
    case Dict(fields) => fields != map[]
  }

  function Lookup(node: Fields, key: Word): Value { if key in node then node[key] else Null }

  predicate On(ctx: Context, node: Fields, key: Word) { Truthy(ctx, Lookup(node, key)) }

  predicate Contains(ctx: Context, values: seq<Value>, v: Value) { exists x <- values :: ctx.same(v, x) }

  // ----- references and unions -----

  predicate Conflict(ctx: Context, base: Fields, extra: Fields, key: Word) {
    key in extra && key in base && !ctx.same(base[key], extra[key]) && !Annotation(key)
  }

  function Merged(ctx: Context, base: Fields, extra: Fields): Option<Fields> {
    if exists k <- extra :: Conflict(ctx, base, extra, k) then None else Some(base + extra)
  }

  /** The definition that a reference names. */
  function Target(ref: Value): Option<string> {
    if ref.Str? && ref.word.Other? && "#/$defs/" <= ref.word.text then Some(Unescape(ref.word.text[8..])) else None
  }

  datatype Expansion = Expansion(name: string, fields: Fields)

  function Expanded(ctx: Context, node: Fields, refs: set<string>): (r: Option<Expansion>)
    requires Ref in node
    ensures r.Some? ==> r.value.name in ctx.definitions && r.value.name !in refs
  {
    var name := Target(node[Ref]);
    if name.None? || name.value in refs || name.value !in ctx.definitions then None
    else if !ctx.definitions[name.value].Dict? then None
    else
      match Merged(ctx, ctx.definitions[name.value].fields, node - {Ref})
      case None => None
      case Some(fields) => Some(Expansion(name.value, fields))
  }

  datatype Union = Bad | Single(branch: Value, nullable: bool) | Scalars(nullable: bool)

  function NonNull(variants: seq<Value>): (r: seq<Value>)
    ensures forall v <- r :: v in variants
  {
    if variants == [] then []
    else (if variants[0] == Typed(NullType) then [] else [variants[0]]) + NonNull(variants[1..])
  }

  function UnionOf(anyOf: Value): (u: Union)
    ensures u.Single? ==> anyOf.Arr? && u.branch in anyOf.items && anyOf != INT_OR_STRING
  {
    if !anyOf.Arr? then Bad
    else
      var branches, nullable := NonNull(anyOf.items), Typed(NullType) in anyOf.items;
      if |branches| == 1 then assert branches[0] in branches; UnionIsNot(anyOf.items); Single(branches[0], nullable)
      else if |branches| == 2 && Typed(IntegerType) in branches && Typed(StringType) in branches then Scalars(nullable)
      else Bad
  }

  lemma UnionIsNot(variants: seq<Value>)
    ensures variants == INT_OR_STRING.items ==> |NonNull(variants)| == 2
  {
    if variants == INT_OR_STRING.items {
      TypedDiffer();
      assert NonNull(variants[1..]) == [variants[1]] + NonNull(variants[1..][1..]);
    }
  }

  lemma TypedDiffer()
    ensures Typed(IntegerType) != Typed(NullType) && Typed(StringType) != Typed(NullType)
            && Typed(IntegerType) != Typed(StringType)
  {
    var i, s, n: Fields := map[Type := Str(IntegerType)], map[Type := Str(StringType)], map[Type := Str(NullType)];
    assert i[Type] != n[Type] && s[Type] != n[Type] && i[Type] != s[Type];
  }

  function Marked(node: Fields, nullable: bool): Fields {
    var marked := (node - {AnyOf})[IntOrString := YES];
    if nullable then marked[Nullable := YES] else marked
  }

  // ----- one node without its children -----

  function NonNullTypes(types: seq<Value>): seq<Value> {
    if types == [] then [] else (if types[0] == Str(NullType) then [] else [types[0]]) + NonNullTypes(types[1..])
  }

  function TypeList(node: Fields): Option<Fields> {
    if !Lookup(node, Type).Arr? then Some(node)
    else
      var types := Lookup(node, Type).items;
      if Str(NullType) !in types || |NonNullTypes(types)| != 1 then None
      else Some(node[Type := NonNullTypes(types)[0]][Nullable := YES])
  }

  function ConstEnum(ctx: Context, node: Fields): Option<Fields> {
    if Const !in node then Some(node)
    else if Enum in node && !(node[Enum].Arr? && Contains(ctx, node[Enum].items, node[Const])) then None
    else Some((node - {Const})[Enum := Arr([node[Const]])])
  }

  /** A numeric exclusive bound becomes a flag on the inclusive one, unless that one is stricter. */
  function Bound(ctx: Context, node: Fields, bound: Word, inclusive: Word, lower: bool): Fields {
    var value := Lookup(node, bound);
    if value.Null? || value.Bool? then node
    else if inclusive in node
      && (if lower then ctx.above(node[inclusive], value) else ctx.above(value, node[inclusive])) then node - {bound}
    else node[inclusive := value][bound := YES]
  }

  function Bounds(ctx: Context, node: Fields): Fields {
    Bound(ctx, Bound(ctx, node, ExclusiveMinimum, Minimum, true), ExclusiveMaximum, Maximum, false)
  }

  function FirstExample(ctx: Context, node: Fields): Option<Fields> {
    var examples, rest := Lookup(node, Examples), node - {Examples};
    if !Truthy(ctx, examples) || Example in node then Some(rest)
    else match examples
      case Arr(items) => if items == [] then Some(rest) else Some(rest[Example := items[0]])
      case Str(Other(text)) => if text == "" then Some(rest) else Some(rest[Example := Str(Other(text[..1]))])
      case _ => None
  }

  predicate Primitive(v: Value) {
    v.Str?
    && (v.word.ObjectType? || v.word.ArrayType? || v.word.StringType? || v.word.NumberType? || v.word.IntegerType?
        || v.word.BooleanType?)
  }

  /** Supported keywords, a primitive type, items for arrays, no closed object. */
  predicate Acceptable(node: Fields) {
    && (forall k <- node :: Keyword(k))
    && (Type in node ==> Primitive(node[Type]))
    && (Lookup(node, Type) == Str(ArrayType) ==> Items in node)
    && Lookup(node, AdditionalProperties) != Bool(false)
  }

  function OpenObject(node: Fields): Fields {
    if Lookup(node, AdditionalProperties) == YES then (node - {AdditionalProperties})[PreserveUnknown := YES] else node
  }

  function Prepared(ctx: Context, node: Fields): Option<Fields> {
    var typed := TypeList(node);
    if typed.None? then None
    else
      var enumerated := ConstEnum(ctx, typed.value);
      if enumerated.None? then None
      else
        var bounded := Bounds(ctx, enumerated.value);
        if On(ctx, bounded, UniqueItems) then None
        else
          var shown := FirstExample(ctx, bounded - {UniqueItems});
          if shown.None? || !Acceptable(shown.value) then None else Some(OpenObject(shown.value))
  }

  // ----- extensions -----

  predicate Flag(node: Fields, key: Word) { key in node ==> node[key] == YES }

  function FieldsOf(v: Value): Fields { if v.Dict? then v.fields else map[] }

  predicate Scalar(v: Value) {
    v.Str? && (v.word.StringType? || v.word.IntegerType? || v.word.NumberType? || v.word.BooleanType?)
  }

  predicate MapKey(ctx: Context, items: Fields, key: Value) {
    && key.Str?
    && var field := FieldsOf(Lookup(FieldsOf(Lookup(items, Properties)), key.word));
       && Scalar(Lookup(field, Type)) && !On(ctx, field, Nullable)
       && ((Lookup(items, Required).Arr? && key in Lookup(items, Required).items) || Default in field)
  }

  predicate ListExtension(ctx: Context, node: Fields) {
    var kind, items := Lookup(node, ListType), FieldsOf(Lookup(node, Items));
    !kind.Null? ==>
      && Lookup(node, Type) == Str(ArrayType) && (kind == Str(Atomic) || kind == Str(SetList) || kind == Str(MapList))
      && (kind != Str(Atomic) ==> !On(ctx, items, Nullable))
      && (kind == Str(MapList) ==>
            && Lookup(items, Type) == Str(ObjectType) && Lookup(node, ListMapKeys).Arr?
               && Lookup(node, ListMapKeys).items != []
            && forall key <- Lookup(node, ListMapKeys).items :: MapKey(ctx, items, key))
      && (kind == Str(SetList) && Lookup(items, Type) == Str(ObjectType) ==> Lookup(items, MapType) == Str(Atomic))
      && (kind == Str(SetList) && Lookup(items, Type) == Str(ArrayType) ==> Lookup(items, ListType) == Str(Atomic))
  }

  predicate Validation(ctx: Context, rule: Value) {
    && rule.Dict? && Lookup(rule.fields, Rule).Str?
    && (Lookup(rule.fields, Rule).word.Other? ==> !ctx.blank(Lookup(rule.fields, Rule).word.text))
  }

  predicate Extensions(ctx: Context, node: Fields) {
    && Flag(node, PreserveUnknown) && Flag(node, EmbeddedResource) && Flag(node, IntOrString)
    && (On(ctx, node, EmbeddedResource) ==> Lookup(node, Type) == Str(ObjectType))
    && (On(ctx, node, IntOrString) ==> Type !in node)
    && (MapType in node ==> Lookup(node, Type) == Str(ObjectType) && node[MapType] in {Str(Atomic), Str(Granular)})
    && ListExtension(ctx, node)
    && (ListMapKeys in node ==> Lookup(node, ListType) == Str(MapList))
    && (Validations in node ==>
         node[Validations].Arr? && forall rule <- node[Validations].items :: Validation(ctx, rule))
  }

  // ----- a node after its children -----

  predicate Untyped(ctx: Context, node: Fields) { Type !in node && !On(ctx, node, IntOrString) }

  /** An untyped node may only carry annotations and becomes an open, nullable value. */
  function Completed(ctx: Context, node: Fields): Option<Fields> {
    if Untyped(ctx, node) && exists k <- node :: !(Annotation(k) || k == Nullable || k == PreserveUnknown) then None
    else
      var whole := if Untyped(ctx, node) then node[PreserveUnknown := YES][Nullable := YES] else node;
      if !Extensions(ctx, whole) then None
      else Some(if On(ctx, whole, IntOrString) then whole[AnyOf := INT_OR_STRING] else whole)
  }

  // ----- the recursion measure: how deep unions are nested -----

  predicate Redex(node: Fields) { AnyOf in node && node[AnyOf] != INT_OR_STRING }

  predicate Bounded(s: Value, n: nat)
    decreases s, 1
  {
    s.Dict? ==> if Redex(s.fields) then n > 0 && Inside(s, n - 1) else Inside(s, n)
  }

  predicate Inside(s: Value, n: nat)
    requires s.Dict?
    decreases s, 0
  {
    var node := s.fields;
    && (Properties in node && node[Properties].Dict? ==>
         forall k <- node[Properties].fields :: Bounded(node[Properties].fields[k], n))
    && (Items in node ==> Bounded(node[Items], n))
    && (AdditionalProperties in node ==> Bounded(node[AdditionalProperties], n))
    && (Redex(node) && node[AnyOf].Arr? ==> forall v <- node[AnyOf].items :: Bounded(v, n))
  }

  lemma {:induction false} BoundedUp(s: Value, n: nat, m: nat)
    requires n <= m && Bounded(s, n)
    ensures Bounded(s, m)
    decreases s, 1
  {
    if s.Dict? {
      if Redex(s.fields) { InsideUp(s, n - 1, m - 1); } else { InsideUp(s, n, m); }
    }
  }

  lemma {:induction false} InsideUp(s: Value, n: nat, m: nat)
    requires s.Dict? && n <= m && Inside(s, n)
    ensures Inside(s, m)
    decreases s, 0
  {
    var node := s.fields;
    if Properties in node && node[Properties].Dict? {
      forall k <- node[Properties].fields
        ensures Bounded(node[Properties].fields[k], m)
      {
        BoundedUp(node[Properties].fields[k], n, m);
      }
    }
    if Items in node { BoundedUp(node[Items], n, m); }
    if AdditionalProperties in node { BoundedUp(node[AdditionalProperties], n, m); }
    if Redex(node) && node[AnyOf].Arr? {
      forall v <- node[AnyOf].items ensures Bounded(v, m) { BoundedUp(v, n, m); }
    }
  }

  ghost predicate HasBound(s: Value) { exists n: nat :: Bounded(s, n) }

  lemma {:induction false} FieldsBound(fields: Fields, keys: set<Word>) returns (n: nat)
    requires keys <= fields.Keys && forall k <- keys :: HasBound(fields[k])
    ensures forall k <- keys :: Bounded(fields[k], n)
    decreases |keys|
  {
    if keys == {} {
      n := 0;
    } else {
      var k :| k in keys;
      var a: nat :| Bounded(fields[k], a);
      var b := FieldsBound(fields, keys - {k});
      n := if a < b then b else a;
      BoundedUp(fields[k], a, n);
      forall j | j in keys && j != k ensures Bounded(fields[j], n) { BoundedUp(fields[j], b, n); }
    }
  }

  lemma {:induction false} ValuesBound(values: seq<Value>) returns (n: nat)
    requires forall v <- values :: HasBound(v)
    ensures forall v <- values :: Bounded(v, n)
  {
    if values == [] {
      n := 0;
    } else {
      assert HasBound(values[0]) by { assert values[0] in values; }
      var a: nat :| Bounded(values[0], a);
      forall v <- values[1..] ensures HasBound(v) { assert v in values; }
      var b := ValuesBound(values[1..]);
      n := if a < b then b else a;
      forall v <- values ensures Bounded(v, n) {
        if v == values[0] { BoundedUp(v, a, n); } else { assert v in values[1..]; BoundedUp(v, b, n); }
      }
    }
  }

  /** Every document has some depth. */
  lemma {:induction false} SomeBound(s: Value)
    ensures HasBound(s)
    decreases s
  {
    if s.Dict? {
      var node := s.fields;
      var p, i, a, u := 0, 0, 0, 0;
      if Properties in node && node[Properties].Dict? {
        forall k <- node[Properties].fields
          ensures HasBound(node[Properties].fields[k])
        {
          SomeBound(node[Properties].fields[k]);
        }
        p := FieldsBound(node[Properties].fields, node[Properties].fields.Keys);
      }
      if Items in node { SomeBound(node[Items]); i :| Bounded(node[Items], i); }
      if AdditionalProperties in node {
        SomeBound(node[AdditionalProperties]);
        a :| Bounded(node[AdditionalProperties], a);
      }
      if AnyOf in node && node[AnyOf].Arr? {
        forall v <- node[AnyOf].items ensures HasBound(v) { SomeBound(v); }
        u := ValuesBound(node[AnyOf].items);
      }
      InsideAll(s, p, i, a, u);
      assert Bounded(s, p + i + a + u + 1) by { InsideUp(s, p + i + a + u, p + i + a + u + 1); }
    } else {
      assert Bounded(s, 0);
    }
  }

  lemma InsideAll(s: Value, p: nat, i: nat, a: nat, u: nat)
    requires s.Dict?
    requires Properties in s.fields && s.fields[Properties].Dict? ==>
               forall k <- s.fields[Properties].fields :: Bounded(s.fields[Properties].fields[k], p)
    requires Items in s.fields ==> Bounded(s.fields[Items], i)
    requires AdditionalProperties in s.fields ==> Bounded(s.fields[AdditionalProperties], a)
    requires AnyOf in s.fields && s.fields[AnyOf].Arr? ==> forall v <- s.fields[AnyOf].items :: Bounded(v, u)
    ensures Inside(s, p + i + a + u)
  {
    var node, n := s.fields, p + i + a + u;
    if Properties in node && node[Properties].Dict? {
      forall k <- node[Properties].fields
        ensures Bounded(node[Properties].fields[k], n)
      {
        BoundedUp(node[Properties].fields[k], p, n);
      }
    }
    if Items in node { BoundedUp(node[Items], i, n); }
    if AdditionalProperties in node { BoundedUp(node[AdditionalProperties], a, n); }
    if AnyOf in node && node[AnyOf].Arr? {
      forall v <- node[AnyOf].items ensures Bounded(v, n) { BoundedUp(v, u, n); }
    }
  }

  ghost predicate Least(s: Value, n: nat) { Bounded(s, n) && forall m: nat :: m < n ==> !Bounded(s, m) }

  lemma {:induction false} LeastBelow(s: Value, n: nat)
    requires Bounded(s, n)
    ensures exists m: nat :: Least(s, m)
  {
    if !Least(s, n) {
      var m: nat :| m < n && Bounded(s, m);
      LeastBelow(s, m);
    }
  }

  /** The depth of a document. */
  ghost function Rank(s: Value): (n: nat)
    ensures Least(s, n)
  {
    SomeBound(s);
    var b: nat :| Bounded(s, b);
    LeastBelow(s, b);
    var n: nat :| Least(s, n);
    n
  }
}
