/** Which operations a diff holds: for every path of keys at most one, at the pointer of that path,
    and exactly where the two trees differ. */
module JsonPatchPaths {
  import opened Wrappers
  import opened Json
  import opened JsonPatch
  import opened JsonPatchProofs

  predicate IsObject(v: Option<Json>) { v.Some? && v.value.Obj? }

  /** Both trees have an object right above the path. */
  predicate Shared(before: Json, after: Json, keys: seq<string>) {
    keys != [] ==>
      && IsObject(At(before, keys[..|keys| - 1]))
      && IsObject(At(after, keys[..|keys| - 1]))
  }

  /** What has to happen at a path: a value only one side has comes or goes, and two values that
      are not both objects are replaced when they differ. */
  function Change(before: Json, after: Json, keys: seq<string>): Option<Op> {
    var b, a := At(before, keys), At(after, keys);
    if !Shared(before, after, keys) || b == a || (IsObject(b) && IsObject(a)) then None
    else if a.None? then Some(Remove(Pointer(keys)))
    else if b.None? then Some(Add(Pointer(keys), a.value))
    else Some(Replace(Pointer(keys), a.value))
  }

  // ----- one key further down -----

  lemma AtUnder(doc: Json, key: string, rest: seq<string>)
    ensures At(doc, [key] + rest) == if Field(doc, key).None? then None else At(Field(doc, key).value, rest)
  {
    assert ([key] + rest)[1..] == rest;
  }

  lemma PointerUnder(key: string, rest: seq<string>)
    ensures Pointer([key] + rest) == "/" + Escape(key) + Pointer(rest)
  {
    assert ([key] + rest)[1..] == rest;
  }

  lemma SharedUnder(before: Json, after: Json, key: string, rest: seq<string>)
    requires before.Obj? && after.Obj? && key in before.fields && key in after.fields
    ensures Shared(before, after, [key] + rest) <==> Shared(before.fields[key], after.fields[key], rest)
  {
    var keys := [key] + rest;
    if rest == [] {
      assert keys[..|keys| - 1] == [];
    } else {
      assert keys[..|keys| - 1] == [key] + rest[..|rest| - 1];
      AtUnder(before, key, rest[..|rest| - 1]);
      AtUnder(after, key, rest[..|rest| - 1]);
    }
  }

  function Moved(op: Option<Op>, path: string): Option<Op> { if op.None? then None else Some(Rebase(op.value, path)) }

  lemma ChangeUnder(before: Json, after: Json, key: string, rest: seq<string>)
    requires before.Obj? && after.Obj? && key in before.fields && key in after.fields
    ensures Change(before, after, [key] + rest)
            == Moved(Change(before.fields[key], after.fields[key], rest), "/" + Escape(key))
  {
    AtUnder(before, key, rest);
    AtUnder(after, key, rest);
    SharedUnder(before, after, key, rest);
    PointerUnder(key, rest);
  }

  /** Below a key that one side lacks nothing happens; at the key something does. */
  lemma ChangeAtKey(before: Json, after: Json, key: string, rest: seq<string>)
    requires before.Obj? && after.Obj? && (key in before.fields <==> key !in after.fields)
    ensures rest != [] ==> Change(before, after, [key] + rest) == None
    ensures Change(before, after, [key]) ==
            Some(if key in after.fields then Add("/" + Escape(key), after.fields[key]) else Remove("/" + Escape(key)))
  {
    var keys := [key] + rest;
    if rest != [] {
      assert keys[..|keys| - 1] == [key] + rest[..|rest| - 1];
      AtUnder(before, key, rest[..|rest| - 1]);
      AtUnder(after, key, rest[..|rest| - 1]);
    }
    assert [key][..0] == [] && [key] + [] == [key];
    AtUnder(before, key, []);
    AtUnder(after, key, []);
    PointerUnder(key, []);
    assert "/" + Escape(key) + "" == "/" + Escape(key);
  }

  // ----- membership -----

  lemma {:induction false} InRebased(patch: seq<Op>, path: string, op: Op)
    ensures op in RebaseAll(patch, path) <==> exists o <- patch :: op == Rebase(o, path)
  {
    if patch != [] {
      InRebased(patch[1..], path, op);
      assert patch[0] in patch && forall o <- patch :: o == patch[0] || o in patch[1..];
    }
  }

  lemma {:induction false} InKeys(before: Json, after: Json, keys: seq<string>, op: Op)
    requires before.Obj? && after.Obj? && forall k <- keys :: k in before.fields || k in after.fields
    ensures op in VisitKeys(before, after, keys, "") <==> exists k <- keys :: op in VisitKey(before, after, k, "")
  {
    if keys != [] {
      InKeys(before, after, keys[1..], op);
      assert keys[0] in keys && forall k <- keys :: k == keys[0] || k in keys[1..];
    }
  }

  /** The paths below a key. */
  ghost predicate ChangesUnder(before: Json, after: Json, key: string, op: Op) {
    exists rest :: Change(before, after, [key] + rest) == Some(op)
  }

  lemma {:induction false} KeyExact(before: Json, after: Json, key: string, op: Op)
    requires before.Obj? && after.Obj? && (key in before.fields || key in after.fields)
    ensures op in VisitKey(before, after, key, "") <==> ChangesUnder(before, after, key, op)
    decreases before, 0
  {
    if key in before.fields && key in after.fields {
      SharedKeyExact(before, after, key, op);
    } else {
      ChangeAtKey(before, after, key, []);
      assert [key] + [] == [key];
      assert "" + "/" + Escape(key) == "/" + Escape(key);
      forall rest | rest != [] { ChangeAtKey(before, after, key, rest); }
    }
  }

  lemma {:induction false} SharedKeyExact(before: Json, after: Json, key: string, op: Op)
    requires before.Obj? && after.Obj? && key in before.fields && key in after.fields
    ensures op in VisitKey(before, after, key, "") <==> ChangesUnder(before, after, key, op)
    decreases before, 0, 0
  {
    var b, a, path := before.fields[key], after.fields[key], "/" + Escape(key);
    VisitSharedKey(before, after, key);
    InRebased(Diff(b, a), path, op);
    if o :| o in Diff(b, a) && op == Rebase(o, path) {
      OperationsExact(b, a, o);
      var rest :| Change(b, a, rest) == Some(o);
      ChangeUnder(before, after, key, rest);
    }
    if rest :| Change(before, after, [key] + rest) == Some(op) {
      ChangeUnder(before, after, key, rest);
      OperationsExact(b, a, Change(b, a, rest).value);
    }
  }

  /** An operation is in the diff if and only if it is what has to happen at some path of keys;
      in particular its pointer is the pointer of that path. */
  lemma {:induction false} OperationsExact(before: Json, after: Json, op: Op)
    ensures op in Diff(before, after) <==> exists keys :: Change(before, after, keys) == Some(op)
    decreases before, 1
  {
    if before.Obj? && after.Obj? {
      var all := Sorted(before.fields.Keys + after.fields.Keys);
      InKeys(before, after, all, op);
      forall k <- all { KeyExact(before, after, k, op); }
      ChangesByKey(before, after, op);
    } else {
      RootExact(before, after, op);
    }
  }

  lemma ChangesByKey(before: Json, after: Json, op: Op)
    requires before.Obj? && after.Obj?
    ensures (exists keys :: Change(before, after, keys) == Some(op))
            <==> exists k <- before.fields.Keys + after.fields.Keys :: ChangesUnder(before, after, k, op)
  {
    if keys :| Change(before, after, keys) == Some(op) {
      ChangeSomewhere(before, after, keys);
      assert keys == [keys[0]] + keys[1..];
      assert ChangesUnder(before, after, keys[0], op);
    }
  }

  lemma ChangeSomewhere(before: Json, after: Json, keys: seq<string>)
    requires before.Obj? && after.Obj? && Change(before, after, keys).Some?
    ensures keys != [] && (keys[0] in before.fields || keys[0] in after.fields)
  {
  }

  lemma RootExact(before: Json, after: Json, op: Op)
    requires !before.Obj? || !after.Obj?
    ensures op in Diff(before, after) <==> exists keys :: Change(before, after, keys) == Some(op)
  {
    assert Change(before, after, []) == if before == after then None else Some(Replace("", after));
    forall keys | keys != [] ensures Change(before, after, keys) == None {
      if |keys| > 1 { assert keys[..|keys| - 1][0] == keys[0]; }
    }
  }
}
