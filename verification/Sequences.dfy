/** Sequences without repetition: deques, and dictionaries in insertion order. */
module Sequences {
  predicate NoRepeats<T(==)>(s: seq<T>) { forall i :: 0 <= i < |s| ==> s[i] !in s[..i] }

  lemma Different<T>(s: seq<T>, i: nat, j: nat)
    requires NoRepeats(s) && i < |s| && j < |s| && i != j
    ensures s[i] != s[j]
  {
    if i < j { assert s[i] in s[..j]; } else { assert s[j] in s[..i]; }
  }

  lemma PairsDiffer<T>(s: seq<T>)
    ensures NoRepeats(s) <==> forall i, j :: 0 <= i < j < |s| ==> s[i] != s[j]
  {
    if NoRepeats(s) {
      forall i, j | 0 <= i < j < |s| ensures s[i] != s[j] { Different(s, i, j); }
    }
  }

  lemma FirstApart<T>(s: seq<T>)
    requires s != []
    ensures NoRepeats(s) <==> NoRepeats(s[1..]) && s[0] !in s[1..]
  {
    PairsDiffer(s);
    PairsDiffer(s[1..]);
  }

  lemma AppendNew<T>(s: seq<T>, x: T)
    requires NoRepeats(s) && x !in s
    ensures NoRepeats(s + [x]) && forall y :: y in s + [x] <==> y in s || y == x
  {
    forall i | 0 <= i <= |s| ensures (s + [x])[i] !in (s + [x])[..i] { assert (s + [x])[..i] == s[..i]; }
  }

  function Without<T(==)>(s: seq<T>, x: T): (r: seq<T>)
    ensures |r| <= |s|
  {
    if s == [] then [] else (if s[0] == x then [] else [s[0]]) + Without(s[1..], x)
  }

  lemma {:induction false} WithoutElement<T>(s: seq<T>, x: T)
    requires NoRepeats(s)
    ensures NoRepeats(Without(s, x)) && forall y :: y in Without(s, x) <==> y in s && y != x
  {
    if s != [] {
      WithoutElement(s[1..], x);
      var rest := Without(s[1..], x);
      if s[0] != x {
        var kept := [s[0]] + rest;
        forall i | 0 <= i < |kept| ensures kept[i] !in kept[..i] {
          if i > 0 { assert kept[..i] == [s[0]] + rest[..i - 1] && rest[i - 1] in rest; }
        }
      }
    }
  }

  lemma Regroup<T>(a: seq<T>, b: seq<T>, c: seq<T>)
    ensures a + (b + c) == (a + b) + c
  {
  }

  /** A total of weights. */
  function Sum<T>(s: seq<T>, weight: T -> nat): nat {
    if s == [] then 0 else Sum(s[..|s| - 1], weight) + weight(s[|s| - 1])
  }

  lemma {:induction false} SumUpdate<T>(s: seq<T>, i: nat, x: T, weight: T -> nat)
    requires i < |s|
    ensures Sum(s[i := x], weight) == Sum(s, weight) - weight(s[i]) + weight(x)
    ensures weight(s[i]) <= Sum(s, weight)
  {
    var n := |s| - 1;
    if i < n {
      SumUpdate(s[..n], i, x, weight);
      assert s[i := x][..n] == s[..n][i := x];
    } else {
      assert s[i := x][..n] == s[..n];
    }
  }

  lemma {:induction false} SumFirst<T>(s: seq<T>, weight: T -> nat)
    requires s != []
    ensures Sum(s, weight) == weight(s[0]) + Sum(s[1..], weight)
  {
    var n := |s| - 1;
    if n > 0 {
      SumFirst(s[..n], weight);
      assert s[1..][..n - 1] == s[..n][1..];
    }
  }

  /** Elements of no greater weight have no greater total. */
  lemma {:induction false} SumAtMost<S, T>(a: seq<S>, f: S -> nat, b: seq<T>, g: T -> nat)
    requires |a| == |b| && forall i :: 0 <= i < |a| ==> f(a[i]) <= g(b[i])
    ensures Sum(a, f) <= Sum(b, g)
  {
    if a != [] { SumAtMost(a[..|a| - 1], f, b[..|b| - 1], g); }
  }

  /** How often an element occurs. */
  function Count<T(==)>(s: seq<T>, x: T): nat {
    if s == [] then 0 else Count(s[..|s| - 1], x) + (if s[|s| - 1] == x then 1 else 0)
  }

  lemma CountNext<T>(s: seq<T>, i: nat, x: T)
    requires i < |s|
    ensures Count(s[..i + 1], x) == Count(s[..i], x) + (if s[i] == x then 1 else 0)
  {
    assert s[..i + 1][..i] == s[..i];
  }

  lemma {:induction false} CountGrows<T>(s: seq<T>, i: nat, j: nat, x: T)
    requires i <= j <= |s|
    ensures Count(s[..i], x) <= Count(s[..j], x)
    decreases j
  {
    if i < j {
      CountGrows(s, i, j - 1, x);
      CountNext(s, j - 1, x);
    }
  }

  lemma {:induction false} CountAbsent<T>(s: seq<T>, x: T)
    requires x !in s
    ensures Count(s, x) == 0
  {
    if s != [] { CountAbsent(s[..|s| - 1], x); }
  }

  lemma CountTwice<T>(s: seq<T>, x: T)
    ensures Count(s, x) > 1 <==> exists i, j :: 0 <= i < j < |s| && s[i] == x && s[j] == x
  {
    if Count(s, x) > 1 {
      var i := Occurrence(s, x, 0);
      var j := Occurrence(s, x, 1);
      if i > j { CountGrows(s, j, i, x); }
    }
    if i, j :| 0 <= i < j < |s| && s[i] == x && s[j] == x { CountBoth(s, x, i, j); }
  }

  lemma CountBoth<T>(s: seq<T>, x: T, i: nat, j: nat)
    requires i < j < |s| && s[i] == x && s[j] == x
    ensures Count(s, x) > 1
  {
    CountNext(s, i, x);
    CountNext(s, j, x);
    CountGrows(s, i + 1, j, x);
    CountGrows(s, j + 1, |s|, x);
    assert s[..|s|] == s;
  }

  /** The occurrence with a given number. */
  lemma {:induction false} Occurrence<T>(s: seq<T>, x: T, k: nat) returns (i: nat)
    requires k < Count(s, x)
    ensures i < |s| && s[i] == x && Count(s[..i], x) == k
  {
    var n := |s| - 1;
    if k < Count(s[..n], x) {
      i := Occurrence(s[..n], x, k);
      assert s[..n][..i] == s[..i];
    } else {
      i := n;
    }
  }

  lemma Counted<T>(s: seq<T>, i: nat)
    requires i < |s|
    ensures Count(s, s[i]) > 0
  {
    CountNext(s, i, s[i]);
    CountGrows(s, i + 1, |s|, s[i]);
    assert s[..|s|] == s;
  }

  lemma OneOccurrence<T>(s: seq<T>, x: T, i: nat, j: nat)
    requires i < |s| && j < |s| && s[i] == x && s[j] == x && Count(s[..i], x) == Count(s[..j], x)
    ensures i == j
  {
    CountNext(s, i, x);
    CountNext(s, j, x);
    if i < j { CountGrows(s, i + 1, j, x); }
    if j < i { CountGrows(s, j + 1, i, x); }
  }

  function IfKept<T>(x: T, keep: T -> bool): seq<T> { if keep(x) then [x] else [] }

  function Filter<T>(s: seq<T>, keep: T -> bool): seq<T> {
    if s == [] then [] else IfKept(s[0], keep) + Filter(s[1..], keep)
  }

  lemma {:induction false} FilterAppend<T>(p: seq<T>, q: seq<T>, keep: T -> bool)
    ensures Filter(p + q, keep) == Filter(p, keep) + Filter(q, keep)
  {
    if p == [] {
      assert p + q == q;
    } else {
      assert (p + q)[1..] == p[1..] + q && (p + q)[0] == p[0];
      FilterAppend(p[1..], q, keep);
      Regroup(IfKept(p[0], keep), Filter(p[1..], keep), Filter(q, keep));
    }
  }

  lemma {:induction false} FilterUniform<T>(s: seq<T>, keep: T -> bool, all: bool)
    requires forall x <- s :: keep(x) == all
    ensures Filter(s, keep) == if all then s else []
  {
    if s != [] { FilterUniform(s[1..], keep, all); }
  }
}
