/** JSON Patch: the diff `json_patch` computes, and what a server does with it (section 4 of
    RFC 6902, with pointers as in sections 3 and 4 of RFC 6901). */
module JsonPatch {
  import opened Wrappers
  import opened Json

  datatype Op =
    | Test(path: string, value: Json)
    | Add(path: string, value: Json)
    | Remove(path: string)
    | Replace(path: string, value: Json)

  // ----- the diff -----

  /** `s.replace(c, w)` for a single character c. */
  function ReplaceChar(s: string, c: char, w: string): string {
    if s == "" then "" else (if s[0] == c then w else [s[0]]) + ReplaceChar(s[1..], c, w)
  }

  function Escape(key: string): string { ReplaceChar(ReplaceChar(key, '~', "~0"), '/', "~1") }

  ghost function Visit(before: Json, after: Json, path: string): seq<Op>
    decreases before, 1, 0
  {
    if before.Obj? && after.Obj? then
      VisitKeys(before, after, Sorted(before.fields.Keys + after.fields.Keys), path)
    else if before != after then [Replace(path, after)]
    else []
  }

  ghost function VisitKeys(before: Json, after: Json, keys: seq<string>, path: string): seq<Op>
    requires before.Obj? && after.Obj? && forall k <- keys :: k in before.fields || k in after.fields
    decreases before, 0, |keys|
  {
    if keys == [] then []
    else VisitKey(before, after, keys[0], path) + VisitKeys(before, after, keys[1..], path)
  }

  ghost function VisitKey(before: Json, after: Json, key: string, path: string): seq<Op>
    requires before.Obj? && after.Obj? && (key in before.fields || key in after.fields)
    decreases before, 0, 0
  {
    var pointer := path + "/" + Escape(key);
    if key !in after.fields then [Remove(pointer)]
    else if key !in before.fields then [Add(pointer, after.fields[key])]
    else Visit(before.fields[key], after.fields[key], pointer)
  }

  ghost function Diff(before: Json, after: Json): seq<Op> { Visit(before, after, "") }

  method EscapeKey(key: string) returns (escaped: string)
    ensures escaped == Escape(key)
  {
    escaped := ReplaceChar(key, '~', "~0");
    escaped := ReplaceChar(escaped, '/', "~1");
  }

  lemma {:induction false} VisitKeysAppend(before: Json, after: Json, keys: seq<string>, key: string, path: string)
    requires before.Obj? && after.Obj? && forall k <- keys + [key] :: k in before.fields || k in after.fields
    ensures VisitKeys(before, after, keys + [key], path)
            == VisitKeys(before, after, keys, path) + VisitKey(before, after, key, path)
  {
    if keys == [] {
      assert [key][1..] == [];
    } else {
      VisitKeysAppend(before, after, keys[1..], key, path);
      assert (keys + [key])[1..] == keys[1..] + [key];
    }
  }

  /** The recursion appends to one shared list. */
  method VisitInto(before: Json, after: Json, path: string, patch: seq<Op>) returns (result: seq<Op>)
    ensures result == patch + Visit(before, after, path)
    decreases before, 2
  {
    if before.Obj? && after.Obj? {
      var keys := Sort(before.fields.Keys + after.fields.Keys);
      result := VisitKeysInto(before, after, keys, path, patch);
    } else if before != after {
      result := patch + [Replace(path, after)];
    } else {
      result := patch;
    }
  }

  method VisitKeysInto(before: Json, after: Json, keys: seq<string>, path: string, patch: seq<Op>)
    returns (result: seq<Op>)
    requires before.Obj? && after.Obj? && forall k <- keys :: k in before.fields || k in after.fields
    ensures result == patch + VisitKeys(before, after, keys, path)
    decreases before, 1
  {
    result := patch;
    for i := 0 to |keys|
      invariant result == patch + VisitKeys(before, after, keys[..i], path)
    {
      VisitKeysAppend(before, after, keys[..i], keys[i], path);
      assert keys[..i] + [keys[i]] == keys[..i + 1];
      result := VisitKeyInto(before, after, keys[i], path, result);
    }
    assert keys[..|keys|] == keys;
  }

  method VisitKeyInto(before: Json, after: Json, key: string, path: string, patch: seq<Op>) returns (result: seq<Op>)
    requires before.Obj? && after.Obj? && (key in before.fields || key in after.fields)
    ensures result == patch + VisitKey(before, after, key, path)
    decreases before, 0
  {
    var escaped := EscapeKey(key);
    var pointer := path + "/" + escaped;
    if key !in after.fields {
      result := patch + [Remove(pointer)];
    } else if key !in before.fields {
      result := patch + [Add(pointer, after.fields[key])];
    } else {
      result := VisitInto(before.fields[key], after.fields[key], pointer, patch);
    }
  }

  method ComputePatch(before: Json, after: Json) returns (patch: seq<Op>)
    ensures patch == Diff(before, after)
  {
    patch := VisitInto(before, after, "", []);
  }

  // ----- pointers -----

  /** `s.replace([a, b], [w])` for a two-character text. */
  function ReplacePair(s: string, a: char, b: char, w: char): string {
    if |s| < 2 then s
    else if s[0] == a && s[1] == b then [w] + ReplacePair(s[2..], a, b, w)
    else [s[0]] + ReplacePair(s[1..], a, b, w)
  }

  function Unescape(token: string): string { ReplacePair(ReplacePair(token, '~', '1', '/'), '~', '0', '~') }

  function SegmentLength(s: string): (n: nat)
    ensures n <= |s| && '/' !in s[..n] && (n < |s| ==> s[n] == '/')
  {
    if s == "" || s[0] == '/' then 0 else 1 + SegmentLength(s[1..])
  }

  /** The reference tokens of a pointer; None when it is neither empty nor starts with a slash. */
  function Tokens(pointer: string): Option<seq<string>>
    decreases |pointer|
  {
    if pointer == "" then Some([])
    else if pointer[0] != '/' then None
    else
      var n := SegmentLength(pointer[1..]);
      var rest := Tokens(pointer[1 + n..]);
      if rest.None? then None else Some([Unescape(pointer[1..1 + n])] + rest.value)
  }

  // ----- application -----

  function Digits(token: string): Option<nat> {
    if token == "" then Some(0)
    else
      var last := token[|token| - 1];
      var front := Digits(token[..|token| - 1]);
      if front.Some? && '0' <= last <= '9' then Some(10 * front.value + (last as int - '0' as int)) else None
  }

  /** An array index: decimal digits without leading zeros. */
  function Index(token: string): Option<nat> {
    if token == "" || (token[0] == '0' && |token| > 1) then None else Digits(token)
  }

  function Member(doc: Json, token: string): Option<Json> {
    match doc
    case Obj(fields) => if token in fields then Some(fields[token]) else None
    case Arr(items) =>
      var i := Index(token);
      if i.Some? && i.value < |items| then Some(items[i.value]) else None
    case _ => None
  }

  function SetMember(doc: Json, token: string, value: Json): Json
    requires Member(doc, token).Some?
  {
    match doc
    case Obj(fields) => Obj(fields[token := value])
    case Arr(items) => Arr(items[Index(token).value := value])
  }

  /** The operation at its target's parent. */
  function ApplyHere(op: Op, doc: Json, token: string): Option<Json> {
    match op
    case Remove(_) =>
      if Member(doc, token).None? then None
      else if doc.Obj? then Some(Obj(doc.fields - {token}))
      else var i := Index(token).value; Some(Arr(doc.items[..i] + doc.items[i + 1..]))
    case Add(_, value) =>
      if doc.Obj? then Some(Obj(doc.fields[token := value]))
      else if doc.Arr? then
        var i := if token == "-" then Some(|doc.items|) else Index(token);
        if i.Some? && i.value <= |doc.items| then Some(Arr(doc.items[..i.value] + [value] + doc.items[i.value..]))
          else None
      else None
    case Replace(_, value) => if Member(doc, token).None? then None else Some(SetMember(doc, token, value))
    case Test(_, value) => if Member(doc, token) == Some(value) then Some(doc) else None
  }

  function ApplyAt(op: Op, doc: Json, tokens: seq<string>): Option<Json>
    decreases |tokens|
  {
    if tokens == [] then
      match op
      case Remove(_) => None
      case Test(_, value) => if doc == value then Some(doc) else None
      case _ => Some(op.value)
    else if |tokens| == 1 then ApplyHere(op, doc, tokens[0])
    else
      var child := Member(doc, tokens[0]);
      if child.None? then None
      else
        var changed := ApplyAt(op, child.value, tokens[1..]);
        if changed.None? then None else Some(SetMember(doc, tokens[0], changed.value))
  }

  function ApplyOp(op: Op, doc: Json): Option<Json> {
    var tokens := Tokens(op.path);
    if tokens.None? then None else ApplyAt(op, doc, tokens.value)
  }

  /** All or nothing, one operation after the other. */
  function Apply(patch: seq<Op>, doc: Json): Option<Json> {
    if patch == [] then Some(doc)
    else
      var next := ApplyOp(patch[0], doc);
      if next.None? then None else Apply(patch[1..], next.value)
  }
}
