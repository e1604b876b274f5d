/** JSON values. Numbers keep their text, so 1, 1.0 and true are three different values, as they
    are for `json.dumps`; equality is equality of sorted dumps. */
module Json {
  import opened Wrappers
  import opened Sequences

  datatype Json =
    | Null
    | Bool(b: bool)
    | Num(text: string)
    | Str(s: string)
    | Arr(items: seq<Json>)
    | Obj(fields: map<string, Json>)

  function Field(doc: Json, key: string): Option<Json> {
    if doc.Obj? && key in doc.fields then Some(doc.fields[key]) else None
  }

  /** The value under a path of keys. */
  function At(doc: Json, keys: seq<string>): Option<Json>
    decreases |keys|
  {
    if keys == [] then Some(doc)
    else if Field(doc, keys[0]).None? then None
    else At(Field(doc, keys[0]).value, keys[1..])
  }

  /** Order of strings by code points. */
  predicate Leq(a: string, b: string) {
    a == "" || (b != "" && (a[0] < b[0] || (a[0] == b[0] && Leq(a[1..], b[1..]))))
  }

  lemma {:induction false} LeqTotal(a: string, b: string)
    ensures Leq(a, b) || Leq(b, a)
  {
    if a != "" && b != "" && a[0] == b[0] { LeqTotal(a[1..], b[1..]); }
  }

  lemma {:induction false} LeqAntisymmetric(a: string, b: string)
    requires Leq(a, b) && Leq(b, a)
    ensures a == b
  {
    if a != "" && b != "" {
      LeqAntisymmetric(a[1..], b[1..]);
      assert a == [a[0]] + a[1..] && b == [b[0]] + b[1..];
    }
  }

  lemma {:induction false} LeqTransitive(a: string, b: string, c: string)
    requires Leq(a, b) && Leq(b, c)
    ensures Leq(a, c)
  {
    if a != "" && a[0] == b[0] && b[0] == c[0] { LeqTransitive(a[1..], b[1..], c[1..]); }
  }

  predicate IsLeast(k: string, keys: set<string>) {
    k in keys && forall other <- keys :: Leq(k, other)
  }

  lemma LeastExists(keys: set<string>)
    requires keys != {}
    ensures exists k :: IsLeast(k, keys)
  {
    var k :| k in keys;
    var rest := keys - {k};
    if rest == {} {
      LeqTotal(k, k);
      assert keys == {k};
      assert IsLeast(k, keys);
    } else {
      LeastExists(rest);
      var m :| IsLeast(m, rest);
      LeqTotal(k, m);
      LeqTotal(k, k);
      var least := if Leq(k, m) then k else m;
      forall other <- keys ensures Leq(least, other) {
        if other != k && least == k { LeqTransitive(k, m, other); }
      }
      assert IsLeast(least, keys);
    }
  }

  ghost function Least(keys: set<string>): (k: string)
    requires keys != {}
    ensures IsLeast(k, keys)
  {
    LeastExists(keys);
    var k :| IsLeast(k, keys); k
  }

  /** `sorted(keys)`. */
  ghost function Sorted(keys: set<string>): (s: seq<string>)
    ensures forall k :: k in s <==> k in keys
  {
    if keys == {} then [] else [Least(keys)] + Sorted(keys - {Least(keys)})
  }

  lemma {:induction false} SortedApart(keys: set<string>)
    ensures NoRepeats(Sorted(keys))
  {
    if keys != {} {
      var rest := Sorted(keys - {Least(keys)});
      SortedApart(keys - {Least(keys)});
      FirstApart([Least(keys)] + rest);
    }
  }

  method FindLeast(keys: set<string>) returns (least: string)
    requires keys != {}
    ensures least == Least(keys)
  {
    least :| least in keys;
    LeqTotal(least, least);
    var rest := keys - {least};
    assert keys - rest == {least};
    while rest != {}
      invariant rest <= keys && least in keys
      invariant forall k <- keys - rest :: Leq(least, k)
      decreases rest
    {
      var k :| k in rest;
      LeqTotal(least, k);
      LeqTotal(k, k);
      if !Leq(least, k) {
        forall other <- keys - rest ensures Leq(k, other) { LeqTransitive(k, least, other); }
        least := k;
      }
      rest := rest - {k};
    }
    LeqAntisymmetric(least, Least(keys));
  }

  lemma SortedStep(s: seq<string>, left: set<string>, least: string)
    requires left != {} && least == Least(left)
    ensures (s + [least]) + Sorted(left - {least}) == s + Sorted(left)
  {
    Regroup(s, [least], Sorted(left - {least}));
  }

  method Sort(keys: set<string>) returns (s: seq<string>)
    ensures s == Sorted(keys)
  {
    s := [];
    var left := keys;
    while left != {}
      invariant s + Sorted(left) == Sorted(keys)
      decreases left
    {
      var least := FindLeast(left);
      SortedStep(s, left, least);
      s := s + [least];
      left := left - {least};
    }
  }
}
