/** Sequence rules shared by the extraction steps: the list comprehension that keeps the
    elements passing a test, the loop that builds the same list by appending, and Python's
    `max(..., key=...)`, which returns the first of several equal maxima. */
module Seqs {

  /** `[x for x in s if keep(x)]`. Written from the end, so that a loop appending to a list
      can carry `Filter(s[..i], keep)` as its invariant. */
  function Filter<T(==)>(s: seq<T>, keep: T -> bool): (r: seq<T>)
    ensures |r| <= |s|
    ensures forall x :: x in r ==> x in s && keep(x)
    ensures forall x :: x in s && keep(x) ==> x in r
    decreases |s|
  {
    if s == [] then []
    else
      assert s == s[..|s| - 1] + [s[|s| - 1]];
      var init := Filter(s[..|s| - 1], keep);
      if keep(s[|s| - 1]) then init + [s[|s| - 1]] else init
  }

  /** `a` is `b` with some elements deleted; matched greedily from the end. */
  predicate IsSubsequence<T(==)>(a: seq<T>, b: seq<T>)
    decreases |b|
  {
    if a == [] then true
    else if b == [] then false
    else if a[|a| - 1] == b[|b| - 1] then IsSubsequence(a[..|a| - 1], b[..|b| - 1])
    else IsSubsequence(a, b[..|b| - 1])
  }

  /** The kept elements appear in their original order. */
  lemma {:induction false} FilterIsSubsequence<T>(s: seq<T>, keep: T -> bool)
    ensures IsSubsequence(Filter(s, keep), s)
    decreases |s|
  {
    if s != [] {
      var init := s[..|s| - 1];
      var last := s[|s| - 1];
      FilterIsSubsequence(init, keep);
      var fi := Filter(init, keep);
      if keep(last) {
        assert Filter(s, keep) == fi + [last];
        assert (fi + [last])[..|fi|] == fi;
      } else if fi != [] {
        assert fi[|fi| - 1] in fi;
        assert fi[|fi| - 1] != last;
      }
    }
  }

  /** Each kept value occurs in the result as often as in the input, and no other value occurs. */
  lemma {:induction false} FilterMultiplicity<T>(s: seq<T>, keep: T -> bool, x: T)
    ensures multiset(Filter(s, keep))[x] == if keep(x) then multiset(s)[x] else 0
    decreases |s|
  {
    if s != [] {
      var init := s[..|s| - 1];
      var last := s[|s| - 1];
      FilterMultiplicity(init, keep, x);
      assert s == init + [last];
      assert multiset(s) == multiset(init) + multiset{last};
    }
  }

  /** A filter that keeps nothing returns the empty list. */
  lemma {:induction false} FilterKeepsNone<T>(s: seq<T>, keep: T -> bool)
    requires forall k :: 0 <= k < |s| ==> !keep(s[k])
    ensures Filter(s, keep) == []
    decreases |s|
  {
    if s != [] {
      FilterKeepsNone(s[..|s| - 1], keep);
    }
  }

  /** The loop `kept = []; for x in s: if keep(x): kept.append(x)`. */
  method Select<T(==)>(s: seq<T>, keep: T -> bool) returns (kept: seq<T>)
    ensures kept == Filter(s, keep)
  {
    kept := [];
    for i := 0 to |s|
      invariant kept == Filter(s[..i], keep)
    {
      assert s[..i + 1][..i] == s[..i];
      if keep(s[i]) {
        kept := kept + [s[i]];
      }
    }
    assert s[..|s|] == s;
  }

  /** The position `max(s, key=key)` picks: a largest key, and the first one among equals. */
  function ArgMaxFirst<T>(s: seq<T>, key: T -> nat): (k: nat)
    requires |s| > 0
    ensures k < |s|
    ensures forall j :: 0 <= j < |s| ==> key(s[j]) <= key(s[k])
    ensures forall j :: 0 <= j < k ==> key(s[j]) < key(s[k])
    decreases |s|
  {
    if |s| == 1 then 0
    else
      var m := ArgMaxFirst(s[..|s| - 1], key);
      if key(s[|s| - 1]) > key(s[m]) then |s| - 1 else m
  }

  /** `max([x for x in s if keep(x)], key=key)` read back in `s`: the winner is the first
      element of `s` that passes `keep` and has the largest key among those that pass. */
  lemma {:induction false} ArgMaxOfFilter<T>(s: seq<T>, keep: T -> bool, key: T -> nat) returns (k: nat)
    requires Filter(s, keep) != []
    ensures k < |s| && keep(s[k])
    ensures s[k] == Filter(s, keep)[ArgMaxFirst(Filter(s, keep), key)]
    ensures forall j :: 0 <= j < |s| && keep(s[j]) ==> key(s[j]) <= key(s[k])
    ensures forall j :: 0 <= j < k && keep(s[j]) ==> key(s[j]) < key(s[k])
    decreases |s|
  {
    var init := s[..|s| - 1];
    var fi := Filter(init, keep);
    if fi == [] {
      k := |s| - 1;
      LastIsOnlyKept(s, keep);
    } else {
      var k' := ArgMaxOfFilter(init, keep, key);
      k := ExtendArgMax(s, init, keep, key, k');
    }
  }

  /** Case of `ArgMaxOfFilter` where nothing before the last element passes. */
  lemma LastIsOnlyKept<T>(s: seq<T>, keep: T -> bool)
    requires Filter(s, keep) != [] && Filter(s[..|s| - 1], keep) == []
    ensures keep(s[|s| - 1]) && Filter(s, keep) == [s[|s| - 1]]
    ensures forall j :: 0 <= j < |s| - 1 ==> !keep(s[j])
  {
    var init := s[..|s| - 1];
    forall j | 0 <= j < |s| - 1
      ensures !keep(s[j])
    {
      assert s[j] == init[j] && init[j] in init;
    }
  }

  /** Case of `ArgMaxOfFilter` where the winner `k'` of the shorter list is known. */
  lemma ExtendArgMax<T>(s: seq<T>, init: seq<T>, keep: T -> bool, key: T -> nat, k': nat) returns (k: nat)
    requires |s| > 0 && init == s[..|s| - 1] && Filter(init, keep) != []
    requires k' < |init| && keep(init[k'])
    requires init[k'] == Filter(init, keep)[ArgMaxFirst(Filter(init, keep), key)]
    requires forall j :: 0 <= j < |init| && keep(init[j]) ==> key(init[j]) <= key(init[k'])
    requires forall j :: 0 <= j < k' && keep(init[j]) ==> key(init[j]) < key(init[k'])
    ensures k < |s| && keep(s[k])
    ensures s[k] == Filter(s, keep)[ArgMaxFirst(Filter(s, keep), key)]
    ensures forall j :: 0 <= j < |s| && keep(s[j]) ==> key(s[j]) <= key(s[k])
    ensures forall j :: 0 <= j < k && keep(s[j]) ==> key(s[j]) < key(s[k])
  {
    var last := s[|s| - 1];
    var fi := Filter(init, keep);
    forall j | 0 <= j < |s| - 1
      ensures s[j] == init[j]
    {
    }
    if !keep(last) {
      assert Filter(s, keep) == fi;
      k := k';
    } else {
      assert Filter(s, keep) == fi + [last];
      AppendArgMax(fi, last, key);
      if key(last) > key(s[k']) {
        k := |s| - 1;
      } else {
        k := k';
      }
    }
  }

  /** One more element at the end of the list: `max` switches to it only when it is strictly larger. */
  lemma AppendArgMax<T>(s: seq<T>, x: T, key: T -> nat)
    requires |s| > 0
    ensures ArgMaxFirst(s + [x], key) == if key(x) > key(s[ArgMaxFirst(s, key)]) then |s| else ArgMaxFirst(s, key)
  {
    assert (s + [x])[..|s|] == s;
  }
}
