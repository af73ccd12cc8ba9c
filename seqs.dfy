/** The array pipeline operations the mappers are built from: `some`, `find`, `filter` and `filter(..).map(..)`. */
module Seqs {
  import opened Wrappers

  /** Index i holds the first element of s that satisfies p. */
  ghost predicate IsFirst<T>(p: T -> bool, s: seq<T>, i: int)
  {
    0 <= i < |s| && p(s[i]) && forall j :: 0 <= j < i ==> !p(s[j])
  }

  /** `Array.prototype.some`. */
  function Any<T>(p: T -> bool, s: seq<T>): (r: bool)
    ensures r <==> exists i :: 0 <= i < |s| && p(s[i])
  {
    if s == [] then false
    else
      assert forall i :: 0 <= i < |s| - 1 ==> s[1..][i] == s[i + 1];
      p(s[0]) || Any(p, s[1..])
  }

  /** `Array.prototype.find`: the first element that satisfies p, if any. */
  function Find<T>(p: T -> bool, s: seq<T>): (r: Option<T>)
    ensures r.None? <==> forall i :: 0 <= i < |s| ==> !p(s[i])
    ensures r.Some? ==> exists i :: IsFirst(p, s, i) && r.value == s[i]
    ensures forall i :: IsFirst(p, s, i) ==> r == Some(s[i])
  {
    if s == [] then None
    else if p(s[0]) then Some(s[0])
    else
      var r := Find(p, s[1..]);
      assert forall i :: 1 <= i < |s| ==> (IsFirst(p, s, i) <==> IsFirst(p, s[1..], i - 1));
      r
  }

  /** `Array.prototype.filter`: the elements that satisfy p, in their order. */
  function Filter<T>(p: T -> bool, s: seq<T>): (r: seq<T>)
    ensures |r| <= |s|
    ensures forall i :: 0 <= i < |r| ==> p(r[i])
  {
    if s == [] then [] else (if p(s[0]) then [s[0]] else []) + Filter(p, s[1..])
  }

  lemma {:induction false} FilterMembers<T>(p: T -> bool, s: seq<T>)
    ensures forall x :: x in Filter(p, s) <==> x in s && p(x)
  {
    if s != [] {
      FilterMembers(p, s[1..]);
      assert s == [s[0]] + s[1..];
    }
  }

  /** Filtering leaves nothing exactly when no element passes. */
  lemma {:induction false} FilterEmpty<T>(p: T -> bool, s: seq<T>)
    ensures |Filter(p, s)| == 0 <==> forall i :: 0 <= i < |s| ==> !p(s[i])
  {
    if s != [] {
      FilterEmpty(p, s[1..]);
      assert forall i :: 1 <= i < |s| ==> s[i] == s[1..][i - 1];
    }
  }

  /** Two filters in a row leave nothing exactly when no element passes both. */
  lemma FilterFilterEmpty<T>(p: T -> bool, q: T -> bool, s: seq<T>)
    ensures |Filter(q, Filter(p, s))| == 0 <==> forall i :: 0 <= i < |s| ==> !(p(s[i]) && q(s[i]))
  {
    var passed := Filter(p, s);
    FilterEmpty(q, passed);
    FilterMembers(p, s);
    if |Filter(q, passed)| == 0 {
      forall i | 0 <= i < |s| && p(s[i])
        ensures !q(s[i])
      {
        assert s[i] in passed;
      }
    } else {
      var j :| 0 <= j < |passed| && q(passed[j]);
      assert passed[j] in s;
    }
  }

  /** Filtering keeps relative order: it distributes over concatenation. */
  lemma {:induction false} FilterConcat<T>(p: T -> bool, a: seq<T>, b: seq<T>)
    ensures Filter(p, a + b) == Filter(p, a) + Filter(p, b)
  {
    if a == [] {
      assert a + b == b;
    } else {
      assert (a + b)[1..] == a[1..] + b;
      FilterConcat(p, a[1..], b);
    }
  }

  /** `filter(p).map(f)` in one pass; f need only be defined on the elements that pass p. */
  function FilterMap<T, U>(p: T -> bool, f: T --> U, s: seq<T>): (r: seq<U>)
    requires forall i :: 0 <= i < |s| && p(s[i]) ==> f.requires(s[i])
    ensures |r| == |Filter(p, s)|
  {
    if s == [] then []
    else
      assert forall i :: 0 <= i < |s| - 1 ==> s[1..][i] == s[i + 1];
      var rest := FilterMap(p, f, s[1..]);
      if p(s[0]) then [f(s[0])] + rest else rest
  }

  /** `filter(p).map(f)` maps the filtered elements one to one, in order. */
  lemma {:induction false} FilterMapElements<T, U>(p: T -> bool, f: T --> U, s: seq<T>)
    requires forall i :: 0 <= i < |s| && p(s[i]) ==> f.requires(s[i])
    ensures forall i :: 0 <= i < |FilterMap(p, f, s)| ==>
              f.requires(Filter(p, s)[i]) && FilterMap(p, f, s)[i] == f(Filter(p, s)[i])
  {
    if s != [] {
      assert forall i :: 0 <= i < |s| - 1 ==> s[1..][i] == s[i + 1];
      FilterMapElements(p, f, s[1..]);
    }
  }

  /** What `filter(p).map(f)` yields: exactly the images of the elements that pass p. */
  lemma {:induction false} FilterMapMembers<T, U>(p: T -> bool, f: T --> U, s: seq<T>)
    requires forall i :: 0 <= i < |s| && p(s[i]) ==> f.requires(s[i])
    ensures forall y :: y in FilterMap(p, f, s) <==> exists x :: x in s && p(x) && f.requires(x) && y == f(x)
  {
    if s != [] {
      assert forall i :: 0 <= i < |s| - 1 ==> s[1..][i] == s[i + 1];
      FilterMapMembers(p, f, s[1..]);
      assert s == [s[0]] + s[1..];
    }
  }

  /** `filter(p).map(f)` keeps relative order: it distributes over concatenation. */
  lemma {:induction false} FilterMapConcat<T, U>(p: T -> bool, f: T --> U, a: seq<T>, b: seq<T>)
    requires forall i :: 0 <= i < |a| && p(a[i]) ==> f.requires(a[i])
    requires forall i :: 0 <= i < |b| && p(b[i]) ==> f.requires(b[i])
    ensures forall i :: 0 <= i < |a + b| && p((a + b)[i]) ==> f.requires((a + b)[i])
    ensures FilterMap(p, f, a + b) == FilterMap(p, f, a) + FilterMap(p, f, b)
  {
    assert forall i :: 0 <= i < |a + b| ==> (a + b)[i] == if i < |a| then a[i] else b[i - |a|];
    if a == [] {
      assert a + b == b;
    } else {
      assert (a + b)[1..] == a[1..] + b;
      assert forall i :: 0 <= i < |a| - 1 ==> a[1..][i] == a[i + 1];
      FilterMapConcat(p, f, a[1..], b);
    }
  }

  /** Finding after filtering finds the first element that passes both tests. */
  lemma {:induction false} FindAfterFilter<T>(p: T -> bool, q: T -> bool, s: seq<T>, i: int)
    requires 0 <= i < |s| && p(s[i]) && q(s[i])
    requires forall j :: 0 <= j < i ==> !(p(s[j]) && q(s[j]))
    ensures Find(q, Filter(p, s)) == Some(s[i])
  {
    if i == 0 {
      assert Filter(p, s) == [s[0]] + Filter(p, s[1..]);
    } else {
      FindAfterFilter(p, q, s[1..], i - 1);
      if p(s[0]) {
        assert !q(s[0]);
        assert Filter(p, s) == [s[0]] + Filter(p, s[1..]);
        assert Filter(p, s)[1..] == Filter(p, s[1..]);
      } else {
        assert Filter(p, s) == Filter(p, s[1..]);
      }
      assert s[1..][i - 1] == s[i];
    }
  }

  /** Finding after filtering finds nothing when no element passes both tests. */
  lemma {:induction false} FindAfterFilterNone<T>(p: T -> bool, q: T -> bool, s: seq<T>)
    requires forall j :: 0 <= j < |s| ==> !(p(s[j]) && q(s[j]))
    ensures Find(q, Filter(p, s)) == None
  {
    if s != [] {
      FindAfterFilterNone(p, q, s[1..]);
      if p(s[0]) {
        assert Filter(p, s) == [s[0]] + Filter(p, s[1..]);
        assert Filter(p, s)[1..] == Filter(p, s[1..]);
      }
    }
  }
}
