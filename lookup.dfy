/** `Array.prototype.find`, `findIndex` and `filter`: the first element that
    satisfies a predicate, if any, and the elements that do, in order. */
module Lookup {
  import opened Wrappers

  /** The index of the first element satisfying p. */
  function FindIndex<T>(s: seq<T>, p: T -> bool): (r: Option<nat>)
    ensures r.Some? ==> r.value < |s| && p(s[r.value])
    ensures r.Some? ==> forall j :: 0 <= j < r.value ==> !p(s[j])
    ensures r.None? ==> forall j :: 0 <= j < |s| ==> !p(s[j])
    decreases |s|
  {
    if s == [] then None
    else if p(s[0]) then Some(0)
    else
      match FindIndex(s[1..], p)
      case None => None
      case Some(i) => Some(i + 1)
  }

  /** The first element satisfying p (`undefined` when there is none). */
  function Find<T>(s: seq<T>, p: T -> bool): (r: Option<T>)
    ensures r.None? <==> forall j :: 0 <= j < |s| ==> !p(s[j])
    ensures r.Some? ==> r.value in s && p(r.value)
  {
    match FindIndex(s, p)
    case None => None
    case Some(i) => Some(s[i])
  }

  /** When p singles out one element, `find` returns it. */
  lemma {:induction false} FindSingle<T>(s: seq<T>, p: T -> bool, k: nat)
    requires k < |s| && p(s[k])
    requires forall j :: 0 <= j < |s| && j != k ==> !p(s[j])
    ensures Find(s, p) == Some(s[k])
  {
    var r := FindIndex(s, p);
    assert r.Some? && r.value == k;
  }

  /** `find` over a concatenation looks in the second part only when the
      first has no match. */
  lemma {:induction false} FindAppend<T>(a: seq<T>, b: seq<T>, p: T -> bool)
    ensures Find(a + b, p) == if AnyMatch(a, p) then Find(a, p) else Find(b, p)
  {
    var ia := FindIndex(a, p);
    var ib := FindIndex(b, p);
    if ia.Some? {
      FirstMatchIndex(a + b, p, ia.value);
    } else if ib.Some? {
      assert (a + b)[|a| + ib.value] == b[ib.value];
      FirstMatchIndex(a + b, p, |a| + ib.value);
    } else {
      assert forall j :: 0 <= j < |a + b| ==> !p((a + b)[j]) by {
        forall j | 0 <= j < |a + b| ensures !p((a + b)[j]) {
          if j >= |a| {
            assert (a + b)[j] == b[j - |a|];
          }
        }
      }
    }
  }

  /** The first matching index is the one `findIndex` returns. */
  lemma {:induction false} FirstMatchIndex<T>(s: seq<T>, p: T -> bool, i: nat)
    requires i < |s| && p(s[i]) && forall j :: 0 <= j < i ==> !p(s[j])
    ensures FindIndex(s, p) == Some(i)
  {
  }

  /** `array.some(p)`. */
  predicate AnyMatch<T>(s: seq<T>, p: T -> bool) {
    exists j :: 0 <= j < |s| && p(s[j])
  }

  /** a occurs in b with its order kept, possibly with gaps. */
  ghost predicate IsSubsequence<T>(a: seq<T>, b: seq<T>)
    decreases |b|
  {
    if a == [] then true
    else if b == [] then false
    else (a[0] == b[0] && IsSubsequence(a[1..], b[1..])) || IsSubsequence(a, b[1..])
  }

  /** `array.filter(p)`. */
  function Filter<T>(s: seq<T>, p: T -> bool): (r: seq<T>)
    ensures |r| <= |s|
    ensures forall j :: 0 <= j < |r| ==> r[j] in s && p(r[j])
    ensures (forall j :: 0 <= j < |s| ==> p(s[j])) ==> r == s
    decreases |s|
  {
    if s == [] then []
    else if p(s[0]) then [s[0]] + Filter(s[1..], p)
    else Filter(s[1..], p)
  }

  /** The filter keeps the passing elements in their order, with their
      multiplicity, and drops every failing one. */
  lemma {:induction false} FilterKeepsOrder<T>(s: seq<T>, p: T -> bool)
    ensures IsSubsequence(Filter(s, p), s)
    ensures forall j :: 0 <= j < |s| ==> multiset(Filter(s, p))[s[j]] == if p(s[j]) then multiset(s)[s[j]] else 0
  {
    FilterIsSubsequence(s, p);
    forall j | 0 <= j < |s|
      ensures multiset(Filter(s, p))[s[j]] == if p(s[j]) then multiset(s)[s[j]] else 0
    {
      if p(s[j]) {
        FilterPasses(s, p, s[j]);
      } else {
        FilterFails(s, p, s[j]);
      }
    }
  }

  lemma {:induction false} FilterIsSubsequence<T>(s: seq<T>, p: T -> bool)
    ensures IsSubsequence(Filter(s, p), s)
    decreases |s|
  {
    if s != [] {
      FilterIsSubsequence(s[1..], p);
    }
  }

  lemma {:induction false} FilterFails<T>(s: seq<T>, p: T -> bool, x: T)
    requires !p(x)
    ensures multiset(Filter(s, p))[x] == 0
  {
  }

  lemma {:induction false} FilterPasses<T>(s: seq<T>, p: T -> bool, x: T)
    requires p(x)
    ensures multiset(Filter(s, p))[x] == multiset(s)[x]
    decreases |s|
  {
    if s != [] {
      FilterPasses(s[1..], p, x);
      assert s == [s[0]] + s[1..];
    }
  }

  /** `array.slice(start, end)` for non-negative bounds: the bounds are
      clamped to the length, and a start at or past the end gives nothing. */
  function Slice<T>(s: seq<T>, start: nat, end: nat): (r: seq<T>)
    ensures |r| == if start >= |s| || end <= start then 0 else (if end < |s| then end else |s|) - start
    ensures forall k :: 0 <= k < |r| ==> r[k] == s[start + k]
  {
    if start >= |s| || end <= start then [] else s[start..if end < |s| then end else |s|]
  }
}
