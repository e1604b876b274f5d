/** The cache store: items in insertion order, and secondary indices kept beside them. */
module Store {
  import opened Wrappers
  import opened Sequences

  /** A cached resource. The key is namespace and name; version is the resourceVersion. */
  datatype Object = Object(key: string, uid: string, version: nat, data: string)

  type Items = map<string, Object>
  type Index = map<string, set<string>>
  type IndexFunc = Object -> string

  /** What an index of the items must be: no bucket for the empty key, no empty bucket. */
  function Buckets(items: Items, f: IndexFunc): Index {
    var used := set k | k in items && f(items[k]) != "" :: f(items[k]);
    map b | b in used :: set k | k in items && f(items[k]) == b
  }

  predicate Agrees(index: Index, items: Items, f: IndexFunc) { index == Buckets(items, f) }

  function Discard(index: Index, bucket: string, key: string): Index {
    if bucket == "" || bucket !in index then index
    else if index[bucket] - {key} == {} then index - {bucket}
    else index[bucket := index[bucket] - {key}]
  }

  function Insert(index: Index, bucket: string, key: string): Index {
    if bucket == "" then index
    else index[bucket := (if bucket in index then index[bucket] else {}) + {key}]
  }

  /** Agreement, spelled out per bucket. */
  ghost predicate Pointwise(index: Index, items: Items, f: IndexFunc) {
    && "" !in index
    && (forall b <- index :: index[b] != {})
    && (forall b <- index, k :: k in index[b] <==> k in items && f(items[k]) == b)
    && (forall k <- items :: f(items[k]) != "" ==> f(items[k]) in index)
  }

  lemma AgreesPointwise(index: Index, items: Items, f: IndexFunc)
    ensures Agrees(index, items, f) <==> Pointwise(index, items, f)
  {
    var goal := Buckets(items, f);
    if Agrees(index, items, f) {
      forall b <- index ensures index[b] != {} {
        var k :| k in items && f(items[k]) == b;
        assert k in index[b];
      }
    } else if Pointwise(index, items, f) {
      forall b <- index ensures b in goal && index[b] == goal[b] {
        var k :| k in index[b];
        assert f(items[k]) in goal;
      }
    }
  }

  lemma DiscardAgrees(index: Index, items: Items, f: IndexFunc, key: string)
    requires Agrees(index, items, f) && key in items
    ensures Agrees(Discard(index, f(items[key]), key), items - {key}, f)
  {
    AgreesPointwise(index, items, f);
    var bucket, rest := f(items[key]), items - {key};
    var after := Discard(index, bucket, key);
    forall b <- after, k ensures k in after[b] <==> k in rest && f(rest[k]) == b {
      assert k in index[b] <==> k in items && f(items[k]) == b;
    }
    forall k <- rest ensures f(rest[k]) != "" ==> f(rest[k]) in after {
      if f(rest[k]) == bucket && bucket != "" { assert k in index[bucket] - {key}; }
    }
    assert forall b <- after :: after[b] != {};
    AgreesPointwise(after, rest, f);
  }

  lemma InsertAgrees(index: Index, items: Items, f: IndexFunc, key: string, obj: Object)
    requires Agrees(index, items, f) && key !in items
    ensures Agrees(Insert(index, f(obj), key), items[key := obj], f)
  {
    AgreesPointwise(index, items, f);
    AgreesPointwise(Insert(index, f(obj), key), items[key := obj], f);
  }

  // ----- replace -----

  /** The last item with a key wins. */
  function FromList(items: seq<Object>): Items {
    if items == [] then map[]
    else
      var last := items[|items| - 1];
      var rest := FromList(items[..|items| - 1]);
      if last.key == "" then rest else rest[last.key := last]
  }

  /** What replacing does to an index: every item enters its bucket, overwritten ones included. */
  function IndexList(items: seq<Object>, f: IndexFunc): Index {
    if items == [] then map[]
    else
      var last := items[|items| - 1];
      var rest := IndexList(items[..|items| - 1], f);
      if last.key == "" then rest else Insert(rest, f(last), last.key)
  }

  predicate DistinctKeys(items: seq<Object>) {
    forall i, j :: 0 <= i < j < |items| && items[i].key != "" ==> items[i].key != items[j].key
  }

  /** An overwritten duplicate does no harm to an index when it has no bucket there or the one of
      the item that overwrote it. */
  ghost predicate Harmless(items: seq<Object>, f: IndexFunc) {
    forall o <- items :: o.key != "" && f(o) != "" ==> o.key in FromList(items) && f(FromList(items)[o.key]) == f(o)
  }

  lemma {:induction false} FromListKeys(items: seq<Object>)
    ensures forall k :: k in FromList(items) <==> k != "" && exists o <- items :: o.key == k
    ensures forall k <- FromList(items) :: FromList(items)[k] in items && FromList(items)[k].key == k
  {
    if items != [] {
      FromListKeys(items[..|items| - 1]);
      var rest, last := items[..|items| - 1], items[|items| - 1];
      assert items == rest + [last];
      forall k ensures k in FromList(items) <==> k != "" && exists o <- items :: o.key == k {
        if k != "" && exists o <- items :: o.key == k {
          var o :| o in items && o.key == k;
          assert o in rest || o == last;
        }
      }
    }
  }

  ghost predicate Has(items: seq<Object>, f: IndexFunc, b: string, k: string) {
    b != "" && k != "" && exists o <- items :: o.key == k && f(o) == b
  }

  lemma HasAppend(items: seq<Object>, last: Object, f: IndexFunc, b: string, k: string)
    ensures Has(items + [last], f, b, k)
            <==> Has(items, f, b, k) || (b != "" && k != "" && last.key == k && f(last) == b)
  {
    assert forall o :: o in items + [last] <==> o in items || o == last;
  }

  lemma {:induction false} IndexListBuckets(items: seq<Object>, f: IndexFunc)
    ensures var index := IndexList(items, f);
            && "" !in index && (forall b <- index :: index[b] != {})
            && (forall b, k :: b in index && k in index[b] <==> Has(items, f, b, k))
  {
    if items != [] {
      var rest, last := items[..|items| - 1], items[|items| - 1];
      IndexListBuckets(rest, f);
      assert items == rest + [last];
      var index := IndexList(items, f);
      forall b, k ensures b in index && k in index[b] <==> Has(items, f, b, k) { HasAppend(rest, last, f, b, k); }
    }
  }

  lemma AgreesIsHarmless(items: seq<Object>, f: IndexFunc)
    requires Agrees(IndexList(items, f), FromList(items), f)
    ensures Harmless(items, f)
  {
    var index, stored := IndexList(items, f), FromList(items);
    FromListKeys(items);
    IndexListBuckets(items, f);
    AgreesPointwise(index, stored, f);
    forall o <- items | o.key != "" && f(o) != "" ensures o.key in stored && f(stored[o.key]) == f(o) {
      assert Has(items, f, f(o), o.key);
    }
  }

  lemma HarmlessAgrees(items: seq<Object>, f: IndexFunc)
    requires Harmless(items, f)
    ensures Agrees(IndexList(items, f), FromList(items), f)
  {
    var index, stored := IndexList(items, f), FromList(items);
    FromListKeys(items);
    IndexListBuckets(items, f);
    forall b <- index, k
      ensures k in index[b] <==> k in stored && f(stored[k]) == b
    {
      assert k in index[b] <==> Has(items, f, b, k);
    }
    forall k <- stored
      ensures f(stored[k]) != "" ==> f(stored[k]) in index
    {
      assert f(stored[k]) != "" ==> Has(items, f, f(stored[k]), k);
    }
    AgreesPointwise(index, stored, f);
  }

  /** Replacing keeps an index in agreement exactly when overwritten duplicates are harmless. */
  lemma ReplaceAgrees(items: seq<Object>, f: IndexFunc)
    ensures Agrees(IndexList(items, f), FromList(items), f) <==> Harmless(items, f)
    ensures DistinctKeys(items) ==> Harmless(items, f)
  {
    if Agrees(IndexList(items, f), FromList(items), f) { AgreesIsHarmless(items, f); }
    if Harmless(items, f) { HarmlessAgrees(items, f); }
    FromListKeys(items);
    if DistinctKeys(items) {
      forall o <- items | o.key != "" && f(o) != ""
        ensures o.key in FromList(items) && f(FromList(items)[o.key]) == f(o)
      {
        assert FromList(items)[o.key] == o;
      }
    }
  }

  lemma TwoOfOneKey(a: Object, b: Object, f: IndexFunc)
    requires a.key == b.key != ""
    ensures FromList([a, b]) == map[a.key := b]
    ensures IndexList([a, b], f) == Insert(Insert(map[], f(a), a.key), f(b), a.key)
  {
    assert [a][..0] == [] && FromList([]) == map[] && IndexList([], f) == map[];
    assert [a, b][..1] == [a];
  }

  /** A list that repeats a key with another bucket: the old bucket still names the object. */
  lemma StaleBucket(first: Object, second: Object, f: IndexFunc)
    requires first.key == second.key != "" && f(first) != "" && f(second) != "" && f(first) != f(second)
    ensures var index := IndexList([first, second], f);
            && !Agrees(index, FromList([first, second]), f)
            && f(first) in index && first.key in index[f(first)] && FromList([first, second])[first.key] == second
  {
    TwoOfOneKey(first, second, f);
    ReplaceAgrees([first, second], f);
    assert first in [first, second];
  }

  /** For instance, an object listed with its old and its new label. */
  lemma RelabelledTwice()
    ensures var f: IndexFunc := (o: Object) => o.data;
            var list := [Object("k", "u", 1, "a"), Object("k", "u", 2, "b")];
            !Agrees(IndexList(list, f), FromList(list), f)
  {
    StaleBucket(Object("k", "u", 1, "a"), Object("k", "u", 2, "b"), (o: Object) => o.data);
  }

  // ----- the store object -----

  /** Moving a key from the bucket of its old object to the one of its new object. */
  function Moved(index: Index, f: IndexFunc, key: string, before: Option<Object>, after: Option<Object>): Index {
    var dropped := if before.Some? then Discard(index, f(before.value), key) else index;
    if after.Some? then Insert(dropped, f(after.value), key) else dropped
  }

  function Lookup(items: Items, key: string): Option<Object> { if key in items then Some(items[key]) else None }

  lemma MovedAgrees(index: Index, items: Items, f: IndexFunc, key: string, obj: Object)
    requires Agrees(index, items, f)
    ensures Agrees(Moved(index, f, key, Lookup(items, key), Some(obj)), items[key := obj], f)
  {
    if key in items {
      DiscardAgrees(index, items, f, key);
      InsertAgrees(Discard(index, f(items[key]), key), items - {key}, f, key, obj);
      assert (items - {key})[key := obj] == items[key := obj];
    } else {
      InsertAgrees(index, items, f, key, obj);
    }
  }

  /** What one more list item changes. */
  lemma ListStep(list: seq<Object>, i: nat, f: IndexFunc)
    requires i < |list|
    ensures var done, item := list[..i], list[i];
            && FromList(list[..i + 1]) == (if item.key == "" then FromList(done) else FromList(done)[item.key := item])
            && IndexList(list[..i + 1], f)
               == (if item.key == "" then IndexList(done, f)
                  else Moved(IndexList(done, f), f, item.key, None, Some(item)))
            && OrderOf(list[..i + 1])
               == (if item.key == "" || item.key in OrderOf(done) then OrderOf(done) else OrderOf(done) + [item.key])
  {
    assert list[..i + 1][..i] == list[..i];
  }

  /** Keys of a list in the order a dictionary filled from it keeps them. */
  function OrderOf(items: seq<Object>): seq<string> {
    if items == [] then []
    else
      var last := items[|items| - 1];
      var rest := OrderOf(items[..|items| - 1]);
      if last.key == "" || last.key in rest then rest else rest + [last.key]
  }

  lemma {:induction false} OrderOfKeys(items: seq<Object>)
    ensures Ordered(OrderOf(items), FromList(items))
  {
    if items != [] { OrderOfKeys(items[..|items| - 1]); }
  }

  /** The order lists every stored key once. */
  ghost predicate Ordered(order: seq<string>, items: Items) {
    && NoRepeats(order)
    && (forall k :: k in order <==> k in items)
    && (forall k <- items :: k != "" && items[k].key == k)
  }

  lemma RemoveKey(order: seq<string>, items: Items, i: nat)
    requires Ordered(order, items) && i < |order|
    ensures Ordered(order[..i] + order[i + 1..], items - {order[i]})
  {
    var rest := order[..i] + order[i + 1..];
    forall j | 0 <= j < |rest| ensures rest[j] !in rest[..j] {
      var j' := if j < i then j else j + 1;
      assert rest[j] == order[j'] && forall k :: k in rest[..j] ==> k in order[..j'];
      assert order[j'] !in order[..j'];
    }
    forall j | 0 <= j < |rest| ensures rest[j] != order[i] {
      if j < i { assert order[j] in order[..i]; } else { assert order[i] in order[..j + 1]; }
    }
    forall k ensures k in rest <==> k in items - {order[i]} {
      if k in order && k != order[i] {
        var j :| 0 <= j < |order| && order[j] == k;
        assert rest[if j < i then j else j - 1] == k;
      }
    }
  }

  /** Whether storing the object makes the store drop its oldest item first. */
  predicate Evicts(items: Items, maxItems: nat, obj: Object) {
    maxItems > 0 && obj.key !in items && |items| >= maxItems
  }

  class ConcurrentStore {
    var items: Items
    var order: seq<string>
    var funcs: map<string, IndexFunc>
    var indices: map<string, Index>
    const maxItems: nat

    ghost predicate Stored() reads this { Ordered(order, items) && indices.Keys == funcs.Keys }

    ghost predicate Valid() reads this {
      Stored() && forall name <- funcs :: name in indices && Agrees(indices[name], items, funcs[name])
    }

    constructor (maxItems: nat)
      ensures Valid() && items == map[] && order == [] && funcs == map[] && this.maxItems == maxItems
    {
      this.maxItems := maxItems;
      items, order, funcs, indices := map[], [], map[], map[];
    }

    method AddIndex(name: string, f: IndexFunc)
      requires Valid()
      modifies this
      ensures Valid() && items == old(items) && order == old(order) && funcs == old(funcs)[name := f]
    {
      var index: Index := map[];
      var left := items.Keys;
      assert items - left == map[];
      while left != {}
        invariant left <= items.Keys && Agrees(index, items - left, f) && unchanged(this)
        decreases left
      {
        var key :| key in left;
        InsertAgrees(index, items - left, f, key, items[key]);
        index := Insert(index, f(items[key]), key);
        assert (items - left)[key := items[key]] == items - (left - {key});
        left := left - {key};
      }
      assert items - left == items;
      funcs := funcs[name := f];
      indices := indices[name := index];
    }

    /** Moves a key from its old bucket to its new one, in every index. */
    method UpdateIndices(key: string, before: Option<Object>, after: Option<Object>)
      requires indices.Keys == funcs.Keys
      modifies this`indices
      ensures indices == map name | name in funcs :: Moved(old(indices)[name], funcs[name], key, before, after)
    {
      var names := funcs.Keys;
      while names != {}
        invariant names <= funcs.Keys && indices.Keys == funcs.Keys
        invariant forall name <- names :: indices[name] == old(indices)[name]
        invariant forall name <- funcs.Keys - names ::
                    indices[name] == Moved(old(indices)[name], funcs[name], key, before, after)
        decreases names
      {
        var name :| name in names;
        var index := indices[name];
        if before.Some? { index := Discard(index, funcs[name](before.value), key); }
        if after.Some? { index := Insert(index, funcs[name](after.value), key); }
        assert index == Moved(old(indices)[name], funcs[name], key, before, after);
        indices := indices[name := index];
        names := names - {name};
      }
    }

    method DeleteKey(key: string)
      requires Valid()
      modifies this
      ensures Valid() && items == old(items) - {key} && funcs == old(funcs)
      ensures key !in old(items) ==> order == old(order)
      ensures old(order) != [] && key == old(order)[0] ==> order == old(order)[1..]
    {
      if key !in items { return; }
      var obj := items[key];
      var i :| 0 <= i < |order| && order[i] == key;
      RemoveKey(order, items, i);
      order := order[..i] + order[i + 1..];
      items := items - {key};
      UpdateIndices(key, Some(obj), None);
      forall name <- funcs ensures Agrees(indices[name], items, funcs[name]) {
        DiscardAgrees(old(indices)[name], old(items), funcs[name], key);
      }
    }

    method Delete(obj: Object)
      requires Valid()
      modifies this
      ensures Valid() && items == old(items) - {obj.key} && funcs == old(funcs)
    {
      if obj.key != "" { DeleteKey(obj.key); }
    }

    /** Stores an object under its key and keeps every index in agreement. */
    method Put(obj: Object)
      requires Valid() && obj.key != ""
      modifies this
      ensures Valid() && funcs == old(funcs) && items == old(items)[obj.key := obj]
      ensures order == if obj.key in old(items) then old(order) else old(order) + [obj.key]
    {
      var key := obj.key;
      var previous := Lookup(items, key);
      if key !in items { order := order + [key]; }
      items := items[key := obj];
      UpdateIndices(key, previous, Some(obj));
      forall name <- funcs ensures Agrees(indices[name], items, funcs[name]) {
        MovedAgrees(old(indices)[name], old(items), funcs[name], key, obj);
      }
    }

    /** Adding or updating; a full store drops its oldest item to make room for a new key. */
    method Add(obj: Object)
      requires Valid()
      modifies this
      ensures Valid() && funcs == old(funcs)
      ensures obj.key == "" ==> items == old(items) && order == old(order)
      ensures obj.key != "" ==>
                var evicts := Evicts(old(items), maxItems, obj);
                && (evicts ==> old(order) != [])
                && items == (if evicts then old(items) - {old(order)[0]} else old(items))[obj.key := obj]
                && order == (if obj.key in old(items) then old(order)
                             else (if evicts then old(order)[1..] else old(order)) + [obj.key])
      ensures maxItems > 0 && |old(items)| <= maxItems ==> |items| <= maxItems
    {
      if obj.key == "" { return; }
      if maxItems > 0 && obj.key !in items && |items| >= maxItems {
        var stored :| stored in items;
        assert stored in order;
        var oldest := order[0];
        assert oldest in items;
        DeleteKey(oldest);
        assert |items| == |old(items)| - 1;
      }
      Put(obj);
    }

    method Replace(list: seq<Object>)
      requires Stored()
      modifies this
      ensures Stored() && items == FromList(list) && order == OrderOf(list) && funcs == old(funcs)
      ensures Valid() <==> forall name <- funcs :: Harmless(list, funcs[name])
      ensures DistinctKeys(list) ==> Valid()
    {
      items, order := map[], [];
      indices := map name | name in indices :: map[];
      for i := 0 to |list|
        invariant items == FromList(list[..i]) && order == OrderOf(list[..i]) && funcs == old(funcs)
        invariant indices.Keys == funcs.Keys && forall name <- funcs ::
                    indices[name] == IndexList(list[..i], funcs[name])
      {
        ListStep(list, i, o => "");
        forall name <- funcs
          ensures IndexList(list[..i + 1], funcs[name])
                  == if list[i].key == "" then IndexList(list[..i], funcs[name])
                     else Moved(IndexList(list[..i], funcs[name]), funcs[name], list[i].key, None, Some(list[i]))
        {
          ListStep(list, i, funcs[name]);
        }
        OrderOfKeys(list[..i]);
        var item := list[i];
        if item.key != "" {
          if item.key !in items { order := order + [item.key]; }
          items := items[item.key := item];
          UpdateIndices(item.key, None, Some(item));
        }
      }
      assert list[..|list|] == list;
      OrderOfKeys(list);
      forall name <- funcs
        ensures Agrees(indices[name], items, funcs[name]) <==> Harmless(list, funcs[name])
        ensures DistinctKeys(list) ==> Harmless(list, funcs[name])
      {
        ReplaceAgrees(list, funcs[name]);
      }
    }

    method Clear()
      requires Stored()
      modifies this
      ensures Valid() && items == map[] && order == [] && funcs == old(funcs)
    {
      items, order := map[], [];
      indices := map name | name in indices :: map[];
      forall name <- funcs
        ensures Agrees(indices[name], items, funcs[name])
      {
        AgreesPointwise(indices[name], items, funcs[name]);
      }
    }

    method Get(key: string) returns (obj: Option<Object>)
      ensures obj == if key in items then Some(items[key]) else None
    {
      obj := if key in items then Some(items[key]) else None;
    }

    /** An index lookup finds exactly the stored objects that map to the key. */
    method GetByIndex(name: string, bucket: string) returns (found: Option<set<Object>>)
      requires Valid()
      ensures found.Some? <==> name in funcs
      ensures found.Some? ==>
                forall o ::
                  o in found.value <==> bucket != "" && o.key in items && items[o.key] == o && funcs[name](o) == bucket
    {
      if name !in indices { return None; }
      AgreesPointwise(indices[name], items, funcs[name]);
      var keys := if bucket in indices[name] then indices[name][bucket] else {};
      found := Some(set k | k in keys && k in items :: items[k]);
      forall o
        ensures o in found.value <==> bucket != "" && o.key in items && items[o.key] == o && funcs[name](o) == bucket
      {
        if bucket != "" && o.key in items && items[o.key] == o && funcs[name](o) == bucket { assert o.key in keys; }
      }
    }
  }
}
