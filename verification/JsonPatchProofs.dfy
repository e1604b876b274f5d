/** The diff is undone by application: applied to `before` it gives `after`, operation by
    operation, and every pointer decodes to the keys it was built from. */
module JsonPatchProofs {
  import opened Wrappers
  import opened Sequences
  import opened Json
  import opened JsonPatch

  // ----- pointers -----

  function EscapedChar(c: char): string { if c == '~' then "~0" else if c == '/' then "~1" else [c] }

  lemma {:induction false} ReplaceAppend(s: string, t: string, c: char, w: string)
    ensures ReplaceChar(s + t, c, w) == ReplaceChar(s, c, w) + ReplaceChar(t, c, w)
  {
    if s == "" {
      assert s + t == t;
    } else {
      assert (s + t)[1..] == s[1..] + t;
      ReplaceAppend(s[1..], t, c, w);
      Regroup(if s[0] == c then w else [s[0]], ReplaceChar(s[1..], c, w), ReplaceChar(t, c, w));
    }
  }

  lemma ReplaceOne(a: char, c: char, w: string)
    ensures ReplaceChar([a], c, w) == if a == c then w else [a]
  {
    assert [a][1..] == "" && ReplaceChar("", c, w) == "";
  }

  lemma EscapeChar(c: char)
    ensures Escape([c]) == EscapedChar(c)
  {
    ReplaceOne(c, '~', "~0");
    if c == '~' {
      assert "~0" == ['~'] + ['0'];
      ReplaceAppend(['~'], ['0'], '/', "~1");
      ReplaceOne('~', '/', "~1");
      ReplaceOne('0', '/', "~1");
    } else {
      ReplaceOne(c, '/', "~1");
    }
  }

  lemma EscapeCons(key: string)
    requires key != ""
    ensures Escape(key) == EscapedChar(key[0]) + Escape(key[1..])
  {
    assert key == [key[0]] + key[1..];
    ReplaceAppend([key[0]], key[1..], '~', "~0");
    ReplaceAppend(ReplaceChar([key[0]], '~', "~0"), ReplaceChar(key[1..], '~', "~0"), '/', "~1");
    EscapeChar(key[0]);
  }

  lemma {:induction false} UnescapeSlashes(key: string)
    ensures ReplacePair(Escape(key), '~', '1', '/') == ReplaceChar(key, '~', "~0")
    ensures '/' !in Escape(key)
  {
    if key != "" {
      var rest := Escape(key[1..]);
      UnescapeSlashes(key[1..]);
      EscapeCons(key);
      if key[0] == '~' {
        assert ("~0" + rest)[1..] == "0" + rest && ("0" + rest)[1..] == rest;
        assert ReplacePair("0" + rest, '~', '1', '/') == "0" + ReplacePair(rest, '~', '1', '/');
      } else if key[0] == '/' {
        assert ("~1" + rest)[2..] == rest;
      } else {
        assert ([key[0]] + rest)[1..] == rest;
        assert |rest| == 0 ==> ReplacePair(rest, '~', '1', '/') == "";
      }
    }
  }

  lemma {:induction false} UnescapeTildes(key: string)
    ensures ReplacePair(ReplaceChar(key, '~', "~0"), '~', '0', '~') == key
  {
    if key != "" {
      UnescapeTildes(key[1..]);
      var whole := ReplaceChar(key, '~', "~0");
      var rest := ReplaceChar(key[1..], '~', "~0");
      if key[0] == '~' {
        assert whole[2..] == rest;
      } else {
        assert whole[1..] == rest;
        assert |whole| == 1 ==> rest == "";
      }
      assert key == [key[0]] + key[1..];
    }
  }

  lemma EscapeRoundTrip(key: string)
    ensures Unescape(Escape(key)) == key && '/' !in Escape(key)
  {
    UnescapeSlashes(key);
    UnescapeTildes(key);
  }

  lemma {:induction false} SegmentOf(segment: string, rest: string)
    requires '/' !in segment && (rest == "" || rest[0] == '/')
    ensures SegmentLength(segment + rest) == |segment|
  {
    if segment != "" {
      assert (segment + rest)[1..] == segment[1..] + rest;
      SegmentOf(segment[1..], rest);
    } else {
      assert segment + rest == rest;
    }
  }

  lemma SplitToken(segment: string, rest: string, pointer: string)
    requires pointer == "/" + segment + rest && '/' !in segment && Tokens(rest).Some?
    ensures Tokens(pointer) == Some([Unescape(segment)] + Tokens(rest).value)
  {
    SegmentOf(segment, rest);
    assert pointer[1..] == segment + rest;
    assert pointer[1..1 + |segment|] == segment && pointer[1 + |segment|..] == rest;
  }

  /** The first token of a pointer that starts with an escaped key is that key. */
  lemma FirstToken(key: string, rest: string)
    requires Tokens(rest).Some?
    ensures Tokens("/" + Escape(key) + rest) == Some([key] + Tokens(rest).value)
  {
    EscapeRoundTrip(key);
    SplitToken(Escape(key), rest, "/" + Escape(key) + rest);
  }

  function Pointer(keys: seq<string>): string {
    if keys == [] then "" else "/" + Escape(keys[0]) + Pointer(keys[1..])
  }

  lemma {:induction false} PointerRoundTrip(keys: seq<string>)
    ensures Tokens(Pointer(keys)) == Some(keys)
  {
    if keys != [] {
      PointerRoundTrip(keys[1..]);
      FirstToken(keys[0], Pointer(keys[1..]));
      assert [keys[0]] + keys[1..] == keys;
    }
  }

  // ----- application under one more key -----

  function Rebase(op: Op, path: string): Op {
    match op
    case Test(p, v) => Test(path + p, v)
    case Add(p, v) => Add(path + p, v)
    case Remove(p) => Remove(path + p)
    case Replace(p, v) => Replace(path + p, v)
  }

  function RebaseAll(patch: seq<Op>, path: string): seq<Op> {
    if patch == [] then [] else [Rebase(patch[0], path)] + RebaseAll(patch[1..], path)
  }

  lemma {:induction false} RebaseAppend(p: seq<Op>, q: seq<Op>, path: string)
    ensures RebaseAll(p + q, path) == RebaseAll(p, path) + RebaseAll(q, path)
  {
    if p == [] {
      assert p + q == q;
    } else {
      assert (p + q)[1..] == p[1..] + q;
      RebaseAppend(p[1..], q, path);
    }
  }

  lemma {:induction false} ApplyAppend(p: seq<Op>, q: seq<Op>, doc: Json)
    ensures Apply(p + q, doc) == if Apply(p, doc).None? then None else Apply(q, Apply(p, doc).value)
  {
    if p == [] {
      assert p + q == q;
    } else {
      assert (p + q)[0] == p[0] && (p + q)[1..] == p[1..] + q;
      if ApplyOp(p[0], doc).Some? { ApplyAppend(p[1..], q, ApplyOp(p[0], doc).value); }
    }
  }

  /** Diff operations have decodable pointers; at the root they only replace. */
  predicate Regular(op: Op) {
    Tokens(op.path).Some? && (Tokens(op.path).value == [] ==> op.Replace?)
  }

  lemma {:induction false} RebasedAt(op: Op, path: string, doc: Json, tokens: seq<string>)
    ensures ApplyAt(Rebase(op, path), doc, tokens) == ApplyAt(op, doc, tokens)
    decreases |tokens|
  {
    if |tokens| > 1 && Member(doc, tokens[0]).Some? { RebasedAt(op, path, Member(doc, tokens[0]).value, tokens[1..]); }
  }

  lemma ApplyAtUnder(op: Op, key: string, doc: Json, tokens: seq<string>)
    requires doc.Obj? && key in doc.fields && (tokens == [] ==> op.Replace?)
    ensures var inner := ApplyAt(op, doc.fields[key], tokens);
            ApplyAt(op, doc, [key] + tokens) == if inner.None? then None else Some(Obj(doc.fields[key := inner.value]))
  {
    if tokens == [] {
      assert [key] + tokens == [key];
    } else {
      assert ([key] + tokens)[1..] == tokens;
    }
  }

  lemma ApplyOpUnder(op: Op, key: string, doc: Json)
    requires Regular(op) && doc.Obj? && key in doc.fields
    ensures var inner := ApplyOp(op, doc.fields[key]);
            ApplyOp(Rebase(op, "/" + Escape(key)), doc)
            == if inner.None? then None else Some(Obj(doc.fields[key := inner.value]))
  {
    var tokens := Tokens(op.path).value;
    FirstToken(key, op.path);
    assert Tokens(Rebase(op, "/" + Escape(key)).path) == Some([key] + tokens);
    RebasedAt(op, "/" + Escape(key), doc, [key] + tokens);
    ApplyAtUnder(op, key, doc, tokens);
  }

  lemma SetKey<T>(m: map<string, T>, key: string, x: T, y: T)
    ensures m[key := x][key := y] == m[key := y]
    ensures key in m && m[key] == x ==> m[key := x] == m
  {
  }

  lemma {:induction false} ApplyUnder(patch: seq<Op>, key: string, doc: Json)
    requires (forall op <- patch :: Regular(op)) && doc.Obj? && key in doc.fields
    ensures var inner := Apply(patch, doc.fields[key]);
            Apply(RebaseAll(patch, "/" + Escape(key)), doc)
            == if inner.None? then None else Some(Obj(doc.fields[key := inner.value]))
  {
    if patch == [] {
      SetKey(doc.fields, key, doc.fields[key], Null);
    } else {
      var op, rest := patch[0], patch[1..];
      ApplyOpUnder(op, key, doc);
      var rebased := RebaseAll(patch, "/" + Escape(key));
      assert rebased[0] == Rebase(op, "/" + Escape(key)) && rebased[1..] == RebaseAll(rest, "/" + Escape(key));
      var inner := ApplyOp(op, doc.fields[key]);
      if inner.Some? {
        ApplyUnder(rest, key, Obj(doc.fields[key := inner.value]));
        var last := Apply(rest, inner.value);
        if last.Some? { SetKey(doc.fields, key, inner.value, last.value); }
      }
    }
  }

  // ----- the operations of a diff -----

  lemma {:induction false} VisitRebase(before: Json, after: Json, path: string, inner: string)
    ensures Visit(before, after, path + inner) == RebaseAll(Visit(before, after, inner), path)
    decreases before, 1, 0
  {
    if before.Obj? && after.Obj? {
      VisitKeysRebase(before, after, Sorted(before.fields.Keys + after.fields.Keys), path, inner);
    }
  }

  lemma {:induction false} VisitKeysRebase(before: Json, after: Json, keys: seq<string>, path: string, inner: string)
    requires before.Obj? && after.Obj? && forall k <- keys :: k in before.fields || k in after.fields
    ensures VisitKeys(before, after, keys, path + inner) == RebaseAll(VisitKeys(before, after, keys, inner), path)
    decreases before, 0, |keys|
  {
    if keys != [] {
      var key := keys[0];
      assert (path + inner) + "/" + Escape(key) == path + (inner + "/" + Escape(key));
      if key in before.fields && key in after.fields {
        VisitRebase(before.fields[key], after.fields[key], path, inner + "/" + Escape(key));
      }
      VisitKeysRebase(before, after, keys[1..], path, inner);
      RebaseAppend(VisitKey(before, after, key, inner), VisitKeys(before, after, keys[1..], inner), path);
    }
  }

  /** Below a shared key, the operations are those of the two values, moved under the key. */
  lemma VisitSharedKey(before: Json, after: Json, key: string)
    requires before.Obj? && after.Obj? && key in before.fields && key in after.fields
    ensures VisitKey(before, after, key, "")
            == RebaseAll(Diff(before.fields[key], after.fields[key]), "/" + Escape(key))
  {
    assert "" + "/" + Escape(key) == "/" + Escape(key) + "";
    VisitRebase(before.fields[key], after.fields[key], "/" + Escape(key), "");
  }

  lemma {:induction false} RegularRebase(patch: seq<Op>, key: string)
    requires forall op <- patch :: Regular(op)
    ensures forall op <- RebaseAll(patch, "/" + Escape(key)) ::
              Regular(op) && Tokens(op.path).value != [] && Tokens(op.path).value[0] == key
  {
    if patch != [] {
      RegularRebase(patch[1..], key);
      assert Regular(patch[0]);
      FirstToken(key, patch[0].path);
    }
  }

  lemma {:induction false} VisitRegular(before: Json, after: Json)
    ensures forall op <- Diff(before, after) :: Regular(op)
    decreases before, 1, 0
  {
    if before.Obj? && after.Obj? {
      VisitKeysRegular(before, after, Sorted(before.fields.Keys + after.fields.Keys));
    }
  }

  lemma {:induction false} VisitKeysRegular(before: Json, after: Json, keys: seq<string>)
    requires before.Obj? && after.Obj? && forall k <- keys :: k in before.fields || k in after.fields
    ensures forall op <- VisitKeys(before, after, keys, "") :: Regular(op)
    decreases before, 0, |keys|
  {
    if keys != [] {
      if keys[0] in before.fields && keys[0] in after.fields {
        VisitRegular(before.fields[keys[0]], after.fields[keys[0]]);
      }
      KeyTokens(before, after, keys[0]);
      VisitKeysRegular(before, after, keys[1..]);
    }
  }

  /** Every operation for a key has a pointer whose first token is that key. */
  lemma KeyTokens(before: Json, after: Json, key: string)
    requires before.Obj? && after.Obj? && (key in before.fields || key in after.fields)
    requires key in before.fields && key in after.fields ==>
               forall op <- Diff(before.fields[key], after.fields[key]) :: Regular(op)
    ensures forall op <- VisitKey(before, after, key, "") ::
              Regular(op) && Tokens(op.path).value != [] && Tokens(op.path).value[0] == key
  {
    if key in before.fields && key in after.fields {
      VisitSharedKey(before, after, key);
      RegularRebase(Diff(before.fields[key], after.fields[key]), key);
    } else {
      TokensOfKey(key);
    }
  }

  // ----- round trip -----

  /** `doc` with the listed keys taken from `after`. */
  function Updated(doc: map<string, Json>, after: map<string, Json>, keys: seq<string>): map<string, Json> {
    map k | k in doc.Keys + after.Keys && (if k in keys then k in after else k in doc) ::
      if k in keys then after[k] else doc[k]
  }

  predicate AgreeOn(doc: Json, before: Json, key: string) {
    doc.Obj? && before.Obj? && (key in doc.fields <==> key in before.fields)
    && (key in doc.fields ==> doc.fields[key] == before.fields[key])
  }

  lemma {:induction false} RoundTrip(before: Json, after: Json)
    ensures Apply(Diff(before, after), before) == Some(after)
    decreases before, 2, 0
  {
    if before.Obj? && after.Obj? {
      var keys := Sorted(before.fields.Keys + after.fields.Keys);
      SortedApart(before.fields.Keys + after.fields.Keys);
      KeysRoundTrip(before, after, keys, before);
      assert Updated(before.fields, after.fields, keys) == after.fields;
    } else if before != after {
      assert Tokens("") == Some([]);
      assert Apply([Replace("", after)], before) == Apply([], after);
    }
  }

  /** The operations of one key move that key of any agreeing document to `after`. */
  lemma {:induction false} KeyRoundTrip(before: Json, after: Json, key: string, doc: Json)
    requires after.Obj? && AgreeOn(doc, before, key) && (key in before.fields || key in after.fields)
    ensures Apply(VisitKey(before, after, key, ""), doc) == Some(Obj(Updated(doc.fields, after.fields, [key])))
    decreases before, 0, 0
  {
    if key in before.fields && key in after.fields {
      RoundTrip(before.fields[key], after.fields[key]);
      SharedKeyRoundTrip(before, after, key, doc);
    } else {
      OneSidedKeyRoundTrip(before, after, key, doc);
    }
  }

  lemma UpdatedOne(doc: map<string, Json>, after: map<string, Json>, key: string)
    ensures key in after ==> doc[key := after[key]] == Updated(doc, after, [key])
    ensures key !in after ==> doc - {key} == Updated(doc, after, [key])
  {
    assert key in [key] && forall k :: k in [key] ==> k == key;
  }

  lemma SharedKeyRoundTrip(before: Json, after: Json, key: string, doc: Json)
    requires after.Obj? && AgreeOn(doc, before, key) && key in before.fields && key in after.fields
    requires Apply(Diff(before.fields[key], after.fields[key]), before.fields[key]) == Some(after.fields[key])
    ensures Apply(VisitKey(before, after, key, ""), doc) == Some(Obj(Updated(doc.fields, after.fields, [key])))
  {
    var inner := Diff(before.fields[key], after.fields[key]);
    VisitRegular(before.fields[key], after.fields[key]);
    ApplyUnder(inner, key, doc);
    VisitSharedKey(before, after, key);
    UpdatedOne(doc.fields, after.fields, key);
  }

  lemma TokensOfKey(key: string)
    ensures Tokens("" + "/" + Escape(key)) == Some([key])
  {
    PointerRoundTrip([key]);
    assert [key][1..] == [];
    assert Pointer([key]) == "/" + Escape(key) + "" == "" + "/" + Escape(key);
  }

  lemma ApplyOne(op: Op, doc: Json)
    ensures Apply([op], doc) == ApplyOp(op, doc)
  {
    assert [op][1..] == [];
  }

  lemma OneSidedKeyRoundTrip(before: Json, after: Json, key: string, doc: Json)
    requires after.Obj? && AgreeOn(doc, before, key) && (key in before.fields <==> key !in after.fields)
    ensures Apply(VisitKey(before, after, key, ""), doc) == Some(Obj(Updated(doc.fields, after.fields, [key])))
  {
    var pointer := "" + "/" + Escape(key);
    var op := if key in after.fields then Add(pointer, after.fields[key]) else Remove(pointer);
    assert VisitKey(before, after, key, "") == [op];
    TokensOfKey(key);
    assert ApplyOp(op, doc) == ApplyHere(op, doc, key);
    ApplyOne(op, doc);
    UpdatedOne(doc.fields, after.fields, key);
  }

  lemma UpdatedStep(doc: map<string, Json>, after: map<string, Json>, keys: seq<string>)
    requires keys != []
    ensures Updated(Updated(doc, after, [keys[0]]), after, keys[1..]) == Updated(doc, after, keys)
  {
    assert forall k :: k in keys <==> k in [keys[0]] || k in keys[1..];
  }

  lemma {:induction false} KeysRoundTrip(before: Json, after: Json, keys: seq<string>, doc: Json)
    requires before.Obj? && after.Obj? && NoRepeats(keys) && doc.Obj?
    requires forall k <- keys :: (k in before.fields || k in after.fields) && AgreeOn(doc, before, k)
    ensures Apply(VisitKeys(before, after, keys, ""), doc) == Some(Obj(Updated(doc.fields, after.fields, keys)))
    decreases before, 1, |keys|
  {
    if keys == [] {
      assert Updated(doc.fields, after.fields, []) == doc.fields;
    } else {
      var key, rest := keys[0], keys[1..];
      KeyRoundTrip(before, after, key, doc);
      FirstApart(keys);
      var next := Obj(Updated(doc.fields, after.fields, [key]));
      assert forall k <- rest :: AgreeOn(next, before, k);
      KeysRoundTrip(before, after, rest, next);
      ApplyAppend(VisitKey(before, after, key, ""), VisitKeys(before, after, rest, ""), doc);
      UpdatedStep(doc.fields, after.fields, keys);
    }
  }

  lemma {:induction false} DiffOfEqual(doc: Json)
    ensures Diff(doc, doc) == []
    decreases doc, 1, 0
  {
    if doc.Obj? { VisitKeysOfEqual(doc, Sorted(doc.fields.Keys + doc.fields.Keys)); }
  }

  lemma {:induction false} VisitKeysOfEqual(doc: Json, keys: seq<string>)
    requires doc.Obj? && forall k <- keys :: k in doc.fields
    ensures VisitKeys(doc, doc, keys, "") == []
    decreases doc, 0, |keys|
  {
    if keys != [] {
      DiffOfEqual(doc.fields[keys[0]]);
      VisitSharedKey(doc, doc, keys[0]);
      VisitKeysOfEqual(doc, keys[1..]);
    }
  }

  lemma EmptyIffEqual(before: Json, after: Json)
    ensures Diff(before, after) == [] <==> before == after
  {
    RoundTrip(before, after);
    DiffOfEqual(before);
  }
}
