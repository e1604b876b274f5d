/** When an array edit is carried over and which element goes where, in terms of names, equality
    and unknown data. */
module OverlayPlans {
  import opened Wrappers
  import opened Sequences
  import opened Json
  import opened Overlay
  import opened OverlayProofs

  // ----- named arrays -----

  /** Every element has a name and no two share it. */
  predicate Named(values: seq<Json>) {
    && (forall v <- values :: NameOf(v) != "")
    && (forall i, j :: 0 <= i < j < |values| ==> NameOf(values[i]) != NameOf(values[j]))
  }

  predicate Holds(values: seq<Json>, name: string) { exists v <- values :: NameOf(v) == name }

  predicate AllNamed(raw: seq<Json>, before: seq<Json>, after: seq<Json>) {
    Named(raw) && Named(before) && Named(after)
  }

  predicate SameNames(a: seq<Json>, b: seq<Json>) {
    (forall v <- a :: Holds(b, NameOf(v))) && (forall v <- b :: Holds(a, NameOf(v)))
  }

  /** The raw element of that name holds data that the old one does not show. */
  predicate HidesByName(raw: seq<Json>, prior: Json) {
    exists r <- raw :: NameOf(r) == NameOf(prior) && Unknown(r, prior)
  }

  /** A named array is refused when its names are not those of the raw one, or when a new name
      would push out an element that holds unknown data. */
  predicate NamedRefused(raw: seq<Json>, before: seq<Json>, after: seq<Json>) {
    || !SameNames(raw, before)
    || (&& (exists v <- after :: !Holds(before, NameOf(v)))
        && (exists prior <- before :: !Holds(after, NameOf(prior)) && HidesByName(raw, prior)))
  }

  lemma NamesExact(values: seq<Json>)
    ensures Names(values) == if Named(values) then Some(AllNames(values)) else None
  {
    var names := AllNames(values);
    PairsDiffer(names);
    assert "" in names <==> exists v <- values :: NameOf(v) == "" by {
      if "" in names {
        var i :| 0 <= i < |names| && names[i] == "";
        assert values[i] in values;
      }
      if v :| v in values && NameOf(v) == "" {
        var i :| 0 <= i < |values| && values[i] == v;
        assert names[i] == "";
      }
    }
  }

  lemma HoldsExact(values: seq<Json>, name: string)
    ensures name in AllNames(values) <==> Holds(values, name)
  {
    var names := AllNames(values);
    if name in names {
      var i :| 0 <= i < |names| && names[i] == name;
      assert values[i] in values;
    }
    if v :| v in values && NameOf(v) == name {
      var i :| 0 <= i < |values| && values[i] == v;
      assert names[i] == name;
    }
  }

  lemma SameNamesExact(a: seq<Json>, b: seq<Json>)
    ensures (forall n <- AllNames(a) :: n in AllNames(b)) <==> (forall v <- a :: Holds(b, NameOf(v)))
  {
    forall v <- a ensures NameOf(v) in AllNames(a) && (NameOf(v) in AllNames(b) <==> Holds(b, NameOf(v))) {
      HoldsExact(b, NameOf(v));
      HoldsExact(a, NameOf(v));
    }
    forall n <- AllNames(a) ensures exists v <- a :: NameOf(v) == n { HoldsExact(a, n); }
  }

  /** Names lead to the one element that has them. */
  lemma FoundByName(values: seq<Json>, name: string, i: nat)
    requires Named(values) && name in AllNames(values) && i < |values|
    ensures IndexOf(AllNames(values), name) == i <==> NameOf(values[i]) == name
  {
    PairsDiffer(AllNames(values));
    if NameOf(values[i]) == name { IndexOfUnique(AllNames(values), i); }
  }

  lemma HidesExact(raw: seq<Json>, before: seq<Json>, i: nat)
    requires Named(raw) && i < |before| && NameOf(before[i]) in AllNames(raw)
    ensures Unknown(raw[IndexOf(AllNames(raw), NameOf(before[i]))], before[i]) <==> HidesByName(raw, before[i])
  {
    var r := IndexOf(AllNames(raw), NameOf(before[i]));
    assert raw[r] in raw && NameOf(raw[r]) == NameOf(before[i]);
    if x :| x in raw && NameOf(x) == NameOf(before[i]) && Unknown(x, before[i]) {
      var j :| 0 <= j < |raw| && raw[j] == x;
      FoundByName(raw, NameOf(before[i]), j);
    }
  }

  /** The old element at i is gone, and the raw one of its name holds unknown data. */
  predicate GoneWithData(raw: seq<Json>, before: seq<Json>, after: seq<Json>, i: nat)
    requires i < |before| && NameOf(before[i]) in AllNames(raw)
  {
    NameOf(before[i]) !in AllNames(after) && Unknown(raw[IndexOf(AllNames(raw), NameOf(before[i]))], before[i])
  }

  lemma GoneExact(raw: seq<Json>, before: seq<Json>, after: seq<Json>)
    requires Named(raw) && forall b <- before :: NameOf(b) in AllNames(raw)
    ensures (exists i :: 0 <= i < |before| && GoneWithData(raw, before, after, i))
            <==> exists prior <- before :: !Holds(after, NameOf(prior)) && HidesByName(raw, prior)
  {
    forall i | 0 <= i < |before|
      ensures GoneWithData(raw, before, after, i)
              <==> !Holds(after, NameOf(before[i])) && HidesByName(raw, before[i])
    {
      HoldsExact(after, NameOf(before[i]));
      HidesExact(raw, before, i);
    }
    if prior :| prior in before && !Holds(after, NameOf(prior)) && HidesByName(raw, prior) {
      var i :| 0 <= i < |before| && before[i] == prior;
      assert GoneWithData(raw, before, after, i);
    }
  }

  lemma NamedPlanRefuses(raw: seq<Json>, before: seq<Json>, after: seq<Json>)
    requires |raw| == |before| && forall b <- before :: NameOf(b) in AllNames(raw)
    requires (forall n <- AllNames(before) :: n in AllNames(raw))
             && (forall n <- AllNames(raw) :: n in AllNames(before))
    ensures NamedPlan(raw, before, AllNames(raw), AllNames(before), AllNames(after)).None?
            <==> (exists n <- AllNames(after) :: n !in AllNames(before))
                 && exists i :: 0 <= i < |before| && GoneWithData(raw, before, after, i)
  {
    var rawNames, oldNames := AllNames(raw), AllNames(before);
    var pairing := seq(|before|, i requires 0 <= i < |before| => IndexOf(rawNames, oldNames[i]));
    forall i | 0 <= i < |before|
      ensures GoneWithData(raw, before, after, i)
              <==> oldNames[i] !in AllNames(after) && Unknown(raw[pairing[i]], before[i])
    {
      assert pairing[i] == IndexOf(rawNames, NameOf(before[i]));
    }
  }

  lemma NamedRefusedExact(raw: seq<Json>, before: seq<Json>, after: seq<Json>)
    requires |raw| == |before| && AllNamed(raw, before, after)
    ensures NamedPlan(raw, before, AllNames(raw), AllNames(before), AllNames(after)).None?
            <==> NamedRefused(raw, before, after)
  {
    SameNamesExact(raw, before);
    SameNamesExact(before, raw);
    if SameNames(raw, before) {
      forall b <- before ensures NameOf(b) in AllNames(raw) { HoldsExact(raw, NameOf(b)); }
      SameNamesExact(after, before);
      GoneExact(raw, before, after);
      NamedPlanRefuses(raw, before, after);
    }
  }

  // ----- unnamed arrays -----

  /** The new element at j is the old one at i: equal occurrences correspond in order. */
  predicate Comes(before: seq<Json>, after: seq<Json>, j: nat, i: nat)
    requires i < |before| && j < |after|
  {
    before[i] == after[j] && Count(before[..i], after[j]) == Count(after[..j], after[j])
  }

  /** The new element at j has no old one left. */
  predicate Fresh(before: seq<Json>, after: seq<Json>, j: nat)
    requires j < |after|
  {
    Count(before, after[j]) <= Count(after[..j], after[j])
  }

  /** The old element at i is used by one of the first n new ones. */
  predicate Spent(before: seq<Json>, after: seq<Json>, n: nat, i: nat)
    requires i < |before| && n <= |after|
  {
    Count(before[..i], before[i]) < Count(after[..n], before[i])
  }

  /** Equal old elements that cannot be told apart although their raw forms differ. */
  predicate Confused(raw: seq<Json>, before: seq<Json>, after: seq<Json>)
    requires |raw| == |before|
  {
    exists i, j :: 0 <= i < j < |before| && before[i] == before[j] && before[i] in after && raw[i] != raw[j]
  }

  /** What the first n matches are. */
  ghost predicate Matched(before: seq<Json>, after: seq<Json>, n: nat, found: seq<Option<nat>>)
    requires n <= |after|
  {
    && |found| == n
    && forall j :: 0 <= j < n ==>
         match found[j]
         case None => Fresh(before, after, j)
         case Some(i) => i < |before| && Comes(before, after, j, i)
  }

  /** The used positions are the spent ones. */
  lemma UsedExact(before: seq<Json>, after: seq<Json>, n: nat, found: seq<Option<nat>>, i: nat)
    requires n <= |after| && Matched(before, after, n, found) && i < |before|
    ensures i in Used(found) <==> Spent(before, after, n, i)
  {
    if i in Used(found) {
      var j :| 0 <= j < n && found[j] == Some(i);
      CountNext(after, j, before[i]);
      CountGrows(after, j + 1, n, before[i]);
    }
    if Spent(before, after, n, i) {
      var j := Occurrence(after[..n], before[i], Count(before[..i], before[i]));
      assert after[..n][..j] == after[..j];
      assert Comes(before, after, j, i);
      CountNext(before, i, before[i]);
      assert before[..|before|] == before;
      CountGrows(before, i + 1, |before|, before[i]);
      OneOccurrence(before, before[i], i, found[j].value);
      assert found[j] in found;
    }
  }

  lemma {:induction false} CandidatesRise(before: seq<Json>, value: Json, used: set<nat>, n: nat)
    requires n <= |before| && Candidates(before, value, used, n) != []
    ensures forall i <- Candidates(before, value, used, n) :: Candidates(before, value, used, n)[0] <= i
  {
    if Candidates(before, value, used, n - 1) != [] {
      CandidatesRise(before, value, used, n - 1);
      var rest := Candidates(before, value, used, n - 1);
      assert rest[0] in rest;
    }
  }

  /** The candidates for the next new element: the equal old ones that are not spent. */
  predicate Open(before: seq<Json>, after: seq<Json>, n: nat, i: nat)
    requires n < |after| && i < |before|
  {
    before[i] == after[n] && Count(after[..n], after[n]) <= Count(before[..i], after[n])
  }

  ghost predicate AreOpen(before: seq<Json>, after: seq<Json>, n: nat, c: seq<nat>)
    requires n < |after|
  {
    && (forall i <- c :: i < |before| && Open(before, after, n, i))
    && (forall i :: 0 <= i < |before| && Open(before, after, n, i) ==> i in c)
    && (c != [] ==> forall i <- c :: c[0] <= i)
  }

  lemma CandidatesOpen(before: seq<Json>, after: seq<Json>, n: nat, found: seq<Option<nat>>)
    requires n < |after| && Matched(before, after, n, found)
    ensures AreOpen(before, after, n, Candidates(before, after[n], Used(found), |before|))
  {
    var c := Candidates(before, after[n], Used(found), |before|);
    forall i | 0 <= i < |before| && before[i] == after[n] ensures i in Used(found) <==> !Open(before, after, n, i) {
      UsedExact(before, after, n, found, i);
    }
    if c != [] { CandidatesRise(before, after[n], Used(found), |before|); }
  }

  /** The first of them is the old element that the new one corresponds to. */
  lemma FirstOpen(before: seq<Json>, after: seq<Json>, n: nat, c: seq<nat>)
    requires n < |after| && AreOpen(before, after, n, c)
    ensures c == [] <==> Fresh(before, after, n)
    ensures c != [] ==> c[0] < |before| && Comes(before, after, n, c[0])
  {
    var x, m := after[n], Count(after[..n], after[n]);
    if m < Count(before, x) {
      var i := Occurrence(before, x, m);
      assert Open(before, after, n, i);
      assert i in c && c[0] in c;
      CountGrows(before, c[0], i, x);
    }
    if c != [] {
      assert c[0] in c;
      CountNext(before, c[0], x);
      assert before[..|before|] == before;
      CountGrows(before, c[0] + 1, |before|, x);
    }
  }

  predicate ConfusedBy(raw: seq<Json>, before: seq<Json>, value: Json)
    requires |raw| == |before|
  {
    exists i, j :: 0 <= i < j < |before| && before[i] == value && before[j] == value && raw[i] != raw[j]
  }

  lemma ConfusedExact(raw: seq<Json>, before: seq<Json>, after: seq<Json>)
    requires |raw| == |before|
    ensures Confused(raw, before, after) <==> exists x <- after :: ConfusedBy(raw, before, x)
  {
    if x :| x in after && ConfusedBy(raw, before, x) {
      var i, j :| 0 <= i < j < |before| && before[i] == x && before[j] == x && raw[i] != raw[j];
      assert before[i] == before[j] && before[i] in after;
    }
    if i, j :| 0 <= i < j < |before| && before[i] == before[j] && before[i] in after && raw[i] != raw[j] {
      assert ConfusedBy(raw, before, before[i]);
    }
  }

  /** For a value that did not occur before, the candidates are all the equal old elements. */
  lemma DiffersExact(raw: seq<Json>, before: seq<Json>, after: seq<Json>, n: nat, c: seq<nat>)
    requires |raw| == |before| && n < |after| && AreOpen(before, after, n, c) && c != []
    ensures RawDiffers(raw, c) ==> ConfusedBy(raw, before, after[n])
    ensures after[n] !in after[..n] && ConfusedBy(raw, before, after[n]) ==> RawDiffers(raw, c)
  {
    assert c[0] in c;
    if i :| i in c && raw[i] != raw[c[0]] { assert c[0] < i; }
    if after[n] !in after[..n] && ConfusedBy(raw, before, after[n]) {
      CountAbsent(after[..n], after[n]);
      var i, j :| 0 <= i < j < |before| && before[i] == after[n] && before[j] == after[n] && raw[i] != raw[j];
      assert Open(before, after, n, i) && Open(before, after, n, j);
    }
  }

  /** The search refuses exactly a confusion, and otherwise finds the corresponding elements. */
  lemma {:induction false} SourcesExact(raw: seq<Json>, before: seq<Json>, after: seq<Json>, n: nat)
    requires |raw| == |before| && n <= |after|
    ensures Sources(raw, before, after, n).None? <==> exists x <- after[..n] :: ConfusedBy(raw, before, x)
    ensures Sources(raw, before, after, n).Some? ==> Matched(before, after, n, Sources(raw, before, after, n).value)
  {
    if n > 0 {
      var m := n - 1;
      SourcesExact(raw, before, after, m);
      assert forall x :: x in after[..n] <==> x in after[..m] || x == after[m] by {
        assert after[..n] == after[..m] + [after[m]];
      }
      if Sources(raw, before, after, m).Some? {
        var found := Sources(raw, before, after, m).value;
        var c := Candidates(before, after[m], Used(found), |before|);
        CandidatesOpen(before, after, m, found);
        FirstOpen(before, after, m, c);
        SourcesStep(raw, before, after, m, found, c);
      }
    }
  }

  lemma SourcesStep(raw: seq<Json>, before: seq<Json>, after: seq<Json>, n: nat, found: seq<Option<nat>>, c: seq<nat>)
    requires |raw| == |before| && n < |after| && Sources(raw, before, after, n) == Some(found)
    requires Matched(before, after, n, found) && c == Candidates(before, after[n], Used(found), |before|)
    requires AreOpen(before, after, n, c) && (c == [] <==> Fresh(before, after, n))
    requires c != [] ==> c[0] < |before| && Comes(before, after, n, c[0])
    requires forall x <- after[..n] :: !ConfusedBy(raw, before, x)
    ensures Sources(raw, before, after, n + 1).None? <==> ConfusedBy(raw, before, after[n])
    ensures Sources(raw, before, after, n + 1).Some? ==>
              Matched(before, after, n + 1, Sources(raw, before, after, n + 1).value)
  {
    if c == [] {
      NotConfused(raw, before, after, n);
    } else {
      DiffersExact(raw, before, after, n, c);
    }
  }

  /** A value with no old element left that was not confused before is not confused now. */
  lemma NotConfused(raw: seq<Json>, before: seq<Json>, after: seq<Json>, n: nat)
    requires |raw| == |before| && n < |after| && Fresh(before, after, n)
    requires forall x <- after[..n] :: !ConfusedBy(raw, before, x)
    ensures !ConfusedBy(raw, before, after[n])
  {
    if after[n] !in after[..n] {
      CountAbsent(after[..n], after[n]);
      forall i | 0 <= i < |before| ensures before[i] != after[n] { Counted(before, i); }
    }
  }

  /** The edit leaves every element at its place or puts a new one there. */
  predicate EditedInPlace(before: seq<Json>, after: seq<Json>) {
    |before| == |after| && forall j :: 0 <= j < |after| ==> Fresh(before, after, j) || Comes(before, after, j, j)
  }

  predicate TwoFresh(before: seq<Json>, after: seq<Json>) {
    exists i, j :: 0 <= i < j < |after| && Fresh(before, after, i) && Fresh(before, after, j)
  }

  /** An unnamed array is refused when an element disagrees with the typed one, when equal elements
      are confused, when several are edited in place over unknown data, or when a new one comes in
      beside an unused one that holds unknown data. */
  predicate UnnamedRefused(raw: seq<Json>, before: seq<Json>, after: seq<Json>)
    requires |raw| == |before|
  {
    || (exists i :: 0 <= i < |raw| && !Matches(false, raw[i], before[i]))
    || Confused(raw, before, after)
    || (if EditedInPlace(before, after) then
          && TwoFresh(before, after)
          && exists i :: 0 <= i < |raw| && Fresh(before, after, i) && Unknown(raw[i], before[i])
        else
          && (exists j :: 0 <= j < |after| && Fresh(before, after, j))
          && exists i :: 0 <= i < |raw| && !Spent(before, after, |after|, i) && Unknown(raw[i], before[i]))
  }

  lemma NotBoth(before: seq<Json>, after: seq<Json>, j: nat, i: nat)
    requires j < |after| && i < |before| && Comes(before, after, j, i)
    ensures !Fresh(before, after, j)
  {
    CountNext(before, i, after[j]);
    CountGrows(before, i + 1, |before|, after[j]);
    assert before[..|before|] == before;
  }

  lemma NoneIsFresh(before: seq<Json>, after: seq<Json>, found: seq<Option<nat>>, j: nat)
    requires Matched(before, after, |after|, found) && j < |after|
    ensures found[j].None? <==> Fresh(before, after, j)
  {
    if found[j].Some? { NotBoth(before, after, j, found[j].value); }
  }

  lemma SourceExact(before: seq<Json>, after: seq<Json>, found: seq<Option<nat>>, j: nat, i: nat)
    requires Matched(before, after, |after|, found) && j < |after| && i < |before|
    ensures found[j] == Some(i) <==> Comes(before, after, j, i)
  {
    if Comes(before, after, j, i) {
      NotBoth(before, after, j, i);
      OneOccurrence(before, after[j], i, found[j].value);
    }
  }

  lemma InPlaceExact(before: seq<Json>, after: seq<Json>, found: seq<Option<nat>>)
    requires Matched(before, after, |after|, found)
    ensures |before| == |after| && InPlace(found) <==> EditedInPlace(before, after)
  {
    forall j | 0 <= j < |after| ensures found[j].None? <==> Fresh(before, after, j) {
      NoneIsFresh(before, after, found, j);
    }
    if |before| == |after| {
      forall j | 0 <= j < |after| ensures found[j] == Some(j) <==> Comes(before, after, j, j) {
        SourceExact(before, after, found, j, j);
      }
    }
  }

  lemma TwoFreshExact(before: seq<Json>, after: seq<Json>, found: seq<Option<nat>>)
    requires Matched(before, after, |after|, found)
    ensures Count(found, None) > 1 <==> TwoFresh(before, after)
    ensures None in found <==> exists j :: 0 <= j < |after| && Fresh(before, after, j)
  {
    CountTwice(found, None);
    forall j | 0 <= j < |after| ensures found[j] == None <==> Fresh(before, after, j) {
      NoneIsFresh(before, after, found, j);
    }
  }

  lemma UnnamedRefusedExact(raw: seq<Json>, before: seq<Json>, after: seq<Json>)
    requires |raw| == |before|
    ensures UnnamedPlan(raw, before, after).None? <==> UnnamedRefused(raw, before, after)
  {
    SourcesExact(raw, before, after, |after|);
    assert after[..|after|] == after;
    ConfusedExact(raw, before, after);
    if Sources(raw, before, after, |after|).Some? {
      var found := Sources(raw, before, after, |after|).value;
      InPlaceExact(before, after, found);
      TwoFreshExact(before, after, found);
      forall i | 0 <= i < |raw| ensures i in Used(found) <==> Spent(before, after, |after|, i) {
        UsedExact(before, after, |after|, found, i);
      }
      if EditedInPlace(before, after) {
        forall i | 0 <= i < |raw| ensures found[i].None? <==> Fresh(before, after, i) {
          NoneIsFresh(before, after, found, i);
        }
      }
    }
  }

  // ----- both -----

  /** An array edit is refused at this level. */
  predicate ItemsRefused(raw: seq<Json>, before: seq<Json>, after: seq<Json>) {
    || |raw| != |before|
    || if AllNamed(raw, before, after) then NamedRefused(raw, before, after) else UnnamedRefused(raw, before, after)
  }

  /** The new element at j is the old one at b, which is the raw one at r. */
  predicate Corresponds(raw: seq<Json>, before: seq<Json>, after: seq<Json>, j: nat, b: nat, r: nat)
    requires j < |after| && b < |before| && r < |raw|
  {
    if AllNamed(raw, before, after) then
      NameOf(after[j]) == NameOf(before[b]) == NameOf(raw[r])
    else
      b == r && if EditedInPlace(before, after) then j == b else Comes(before, after, j, b)
  }

  lemma RegimeExact(raw: seq<Json>, before: seq<Json>, after: seq<Json>)
    requires |raw| == |before|
    ensures ListPlan(raw, before, after)
            == if AllNamed(raw, before, after)
               then NamedPlan(raw, before, AllNames(raw), AllNames(before), AllNames(after))
               else UnnamedPlan(raw, before, after)
  {
    NamesExact(raw);
    NamesExact(before);
    NamesExact(after);
  }

  /** Refusals of array edits, without the search that finds them. */
  lemma ItemsRefusedExact(raw: seq<Json>, before: seq<Json>, after: seq<Json>)
    ensures ListPlan(raw, before, after).None? <==> ItemsRefused(raw, before, after)
  {
    if |raw| == |before| {
      RegimeExact(raw, before, after);
      if AllNamed(raw, before, after) { NamedRefusedExact(raw, before, after); }
      else { UnnamedRefusedExact(raw, before, after); }
    }
  }

  lemma NamedCorrespond(raw: seq<Json>, before: seq<Json>, after: seq<Json>, plan: Plan, j: nat, b: nat, r: nat)
    requires |raw| == |before| && AllNamed(raw, before, after) && j < |after| && b < |before| && r < |raw|
    requires NamedPlan(raw, before, AllNames(raw), AllNames(before), AllNames(after)) == Some(plan)
    ensures |plan.sources| == |after| && |plan.pairing| == |before|
    ensures plan.sources[j] == Some(b) && plan.pairing[b] == r <==> Corresponds(raw, before, after, j, b, r)
  {
    assert AllNames(before)[b] in AllNames(before);
    FoundByName(raw, NameOf(before[b]), r);
    if NameOf(after[j]) in AllNames(before) { FoundByName(before, NameOf(after[j]), b); }
  }

  lemma UnnamedCorrespond(raw: seq<Json>, before: seq<Json>, after: seq<Json>, plan: Plan, j: nat, b: nat, r: nat)
    requires |raw| == |before| && !AllNamed(raw, before, after) && j < |after| && b < |before| && r < |raw|
    requires UnnamedPlan(raw, before, after) == Some(plan)
    ensures |plan.sources| == |after| && |plan.pairing| == |before|
    ensures plan.sources[j] == Some(b) && plan.pairing[b] == r <==> Corresponds(raw, before, after, j, b, r)
  {
    SourcesExact(raw, before, after, |after|);
    var found := Sources(raw, before, after, |after|).value;
    InPlaceExact(before, after, found);
    SourceExact(before, after, found, j, b);
  }

  /** Where the elements of a carried-over edit come from. */
  lemma PlanExact(raw: seq<Json>, before: seq<Json>, after: seq<Json>, j: nat, b: nat, r: nat)
    requires ListPlan(raw, before, after).Some? && j < |after| && b < |before| && r < |raw|
    ensures var plan := ListPlan(raw, before, after).value;
            plan.sources[j] == Some(b) && plan.pairing[b] == r <==> Corresponds(raw, before, after, j, b, r)
  {
    RegimeExact(raw, before, after);
    var plan := ListPlan(raw, before, after).value;
    if AllNamed(raw, before, after) { NamedCorrespond(raw, before, after, plan, j, b, r); }
    else { UnnamedCorrespond(raw, before, after, plan, j, b, r); }
  }
}
