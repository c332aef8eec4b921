/** The sequence queries the collections are built from, as Ruby's Array and
    Enumerable define them: `select`, `reject`, `find`, `reverse`,
    `inject(0) { |acc, x| acc + f(x) }` and `map` with a raising block.
    Each is a pure function on `seq`; the lemmas below relate them. */
module Sequences {
  import opened Wrappers

  /** `a` is obtained from `b` by deleting elements, keeping the order of the rest. */
  ghost predicate IsSubsequence<T>(a: seq<T>, b: seq<T>)
    decreases |b|
  {
    if |b| == 0 then |a| == 0
    else
      || |a| == 0
      || (a[0] == b[0] && IsSubsequence(a[1..], b[1..]))
      || IsSubsequence(a, b[1..])
  }

  /** `select`: the elements satisfying `p`, in their original order (each as
      often as it occurs in `s`, see `FilterCounts`). */
  function Filter<T>(s: seq<T>, p: T -> bool): (r: seq<T>)
    ensures |r| <= |s|
    ensures forall i :: 0 <= i < |r| ==> p(r[i])
    ensures forall i :: 0 <= i < |r| ==> r[i] in s
    ensures forall i :: 0 <= i < |s| && p(s[i]) ==> s[i] in r
    ensures IsSubsequence(r, s)
  {
    if |s| == 0 then []
    else if p(s[0]) then
      var rest := Filter(s[1..], p);
      assert ([s[0]] + rest)[1..] == rest;
      [s[0]] + rest
    else Filter(s[1..], p)
  }

  /** `reject`: the elements NOT satisfying `p`, in their original order
      (each as often as it occurs in `s`, see `FilterRejectPartition`). */
  function Reject<T>(s: seq<T>, p: T -> bool): (r: seq<T>)
    ensures |r| <= |s|
    ensures forall i :: 0 <= i < |r| ==> !p(r[i])
    ensures forall i :: 0 <= i < |r| ==> r[i] in s
    ensures forall i :: 0 <= i < |s| && !p(s[i]) ==> s[i] in r
    ensures IsSubsequence(r, s)
  {
    if |s| == 0 then []
    else if p(s[0]) then Reject(s[1..], p)
    else
      var rest := Reject(s[1..], p);
      assert ([s[0]] + rest)[1..] == rest;
      [s[0]] + rest
  }

  /** The index of the first element satisfying `p`, if any. */
  function FirstIndex<T>(s: seq<T>, p: T -> bool): (r: Option<nat>)
    ensures r.None? <==> forall i :: 0 <= i < |s| ==> !p(s[i])
    ensures r.Some? ==> r.value < |s| && p(s[r.value])
    ensures r.Some? ==> forall j :: 0 <= j < r.value ==> !p(s[j])
  {
    if |s| == 0 then None
    else if p(s[0]) then Some(0)
    else
      match FirstIndex(s[1..], p)
      case None => None
      case Some(i) => Some(i + 1)
  }

  /** `find` (alias `detect`): the first element satisfying `p`, or nothing. */
  function FindFirst<T>(s: seq<T>, p: T -> bool): (r: Option<T>)
    ensures r.None? <==> forall i :: 0 <= i < |s| ==> !p(s[i])
    ensures r.Some? ==> p(r.value)
    ensures r.Some? ==>
      exists i :: 0 <= i < |s| && s[i] == r.value && forall j :: 0 <= j < i ==> !p(s[j])
  {
    match FirstIndex(s, p)
    case None => None
    case Some(i) => Some(s[i])
  }

  /** `reverse`. */
  function Reverse<T>(s: seq<T>): (r: seq<T>)
    ensures |r| == |s|
    ensures forall i :: 0 <= i < |s| ==> r[i] == s[|s| - 1 - i]
  {
    if |s| == 0 then [] else Reverse(s[1..]) + [s[0]]
  }

  /** `inject(0) { |acc, x| acc + f(x) }` over Ruby's unbounded Integers. */
  function SumBy<T>(s: seq<T>, f: T -> int): int
  {
    if |s| == 0 then 0 else f(s[0]) + SumBy(s[1..], f)
  }

  /** `inject(acc) { |acc, x| acc + f(x) }`: the left-to-right accumulation
      Ruby performs. */
  function InjectSum<T>(acc: int, s: seq<T>, f: T -> int): int
    decreases |s|
  {
    if |s| == 0 then acc else InjectSum(acc + f(s[0]), s[1..], f)
  }

  /** `map` whose block may raise: the first failure aborts the whole map. */
  function MapAll<A, B, E>(s: seq<A>, f: A -> Result<B, E>): (r: Result<seq<B>, E>)
    ensures r.Success? <==> forall i :: 0 <= i < |s| ==> f(s[i]).Success?
    ensures r.Success? ==> |r.value| == |s|
    ensures r.Success? ==> forall i :: 0 <= i < |s| ==> r.value[i] == f(s[i]).value
    ensures r.Failure? ==>
      exists i :: 0 <= i < |s| && f(s[i]).Failure? && r.error == f(s[i]).error
                  && forall j :: 0 <= j < i ==> f(s[j]).Success?
  {
    if |s| == 0 then Success([])
    else
      match f(s[0])
      case Failure(e) => Failure(e)
      case Success(b) =>
        match MapAll(s[1..], f)
        case Failure(e) =>
          assert forall j :: 1 <= j < |s| ==> s[j] == s[1..][j - 1];
          Failure(e)
        case Success(bs) =>
          Success([b] + bs)
  }

  // ---------------------------------------------------------------------------
  // Lemmas
  // ---------------------------------------------------------------------------

  /** Selecting twice with the same block selects nothing more. */
  lemma {:induction false} FilterIdempotent<T>(s: seq<T>, p: T -> bool)
    ensures Filter(Filter(s, p), p) == Filter(s, p)
  {
    if |s| > 0 {
      FilterIdempotent(s[1..], p);
      if p(s[0]) {
        assert ([s[0]] + Filter(s[1..], p))[1..] == Filter(s[1..], p);
      }
    }
  }

  /** Rejecting twice with the same block rejects nothing more. */
  lemma {:induction false} RejectIdempotent<T>(s: seq<T>, p: T -> bool)
    ensures Reject(Reject(s, p), p) == Reject(s, p)
  {
    if |s| > 0 {
      RejectIdempotent(s[1..], p);
      if !p(s[0]) {
        assert ([s[0]] + Reject(s[1..], p))[1..] == Reject(s[1..], p);
      }
    }
  }

  /** `select` keeps an element that matches as often as it occurs, and
      drops one that does not. */
  lemma {:induction false} FilterCount<T>(s: seq<T>, p: T -> bool, x: T)
    ensures multiset(Filter(s, p))[x] == if p(x) then multiset(s)[x] else 0
  {
    if |s| > 0 {
      var rest := Filter(s[1..], p);
      FilterCount(s[1..], p, x);
      assert multiset(s) == multiset{s[0]} + multiset(s[1..]) by {
        assert s == [s[0]] + s[1..];
      }
      if p(s[0]) {
        assert multiset(Filter(s, p)) == multiset{s[0]} + multiset(rest);
      } else {
        assert Filter(s, p) == rest;
      }
    }
  }

  /** `FilterCount` for every element of the sequence. */
  lemma FilterCounts<T>(s: seq<T>, p: T -> bool)
    ensures forall i :: 0 <= i < |s| ==>
      multiset(Filter(s, p))[s[i]] == if p(s[i]) then multiset(s)[s[i]] else 0
  {
    forall i | 0 <= i < |s| {
      FilterCount(s, p, s[i]);
    }
  }
  /** Rejecting with a block no element satisfies keeps the whole sequence. */
  lemma {:induction false} RejectNothing<T>(s: seq<T>, p: T -> bool)
    requires forall i :: 0 <= i < |s| ==> !p(s[i])
    ensures Reject(s, p) == s
  {
    if |s| > 0 {
      RejectNothing(s[1..], p);
      assert s == [s[0]] + s[1..];
    }
  }

  /** `reject(p)` is `select` of the complement of `p`. */
  lemma {:induction false} RejectIsFilterOfComplement<T>(s: seq<T>, p: T -> bool, q: T -> bool)
    requires forall i :: 0 <= i < |s| ==> q(s[i]) == !p(s[i])
    ensures Reject(s, p) == Filter(s, q)
  {
    if |s| > 0 {
      RejectIsFilterOfComplement(s[1..], p, q);
    }
  }

  /** `select(p)` and `reject(p)` split the sequence: every element lands in
      exactly one of the two, so the multisets and the lengths add up. */
  lemma {:induction false} FilterRejectPartition<T>(s: seq<T>, p: T -> bool)
    ensures multiset(Filter(s, p)) + multiset(Reject(s, p)) == multiset(s)
    ensures |Filter(s, p)| + |Reject(s, p)| == |s|
  {
    if |s| > 0 {
      FilterRejectPartition(s[1..], p);
      assert s == [s[0]] + s[1..];
    }
  }

  /** Selecting from a sequence extended by one element. */
  lemma {:induction false} FilterSnoc<T>(s: seq<T>, x: T, p: T -> bool)
    ensures Filter(s + [x], p) == Filter(s, p) + (if p(x) then [x] else [])
  {
    if |s| == 0 {
      assert s + [x] == [x];
      assert [x][1..] == [];
    } else {
      assert (s + [x])[1..] == s[1..] + [x];
      FilterSnoc(s[1..], x, p);
    }
  }

  /** The sum over the selected part plus the sum over the rejected part is the whole sum. */
  lemma {:induction false} SumByPartition<T>(s: seq<T>, p: T -> bool, f: T -> int)
    ensures SumBy(Filter(s, p), f) + SumBy(Reject(s, p), f) == SumBy(s, f)
  {
    if |s| > 0 {
      SumByPartition(s[1..], p, f);
      if p(s[0]) {
        assert ([s[0]] + Filter(s[1..], p))[1..] == Filter(s[1..], p);
      } else {
        assert ([s[0]] + Reject(s[1..], p))[1..] == Reject(s[1..], p);
      }
    }
  }

  /** Accumulating from the left adds the same total as summing from the right. */
  lemma {:induction false} InjectSumIsSum<T>(acc: int, s: seq<T>, f: T -> int)
    ensures InjectSum(acc, s, f) == acc + SumBy(s, f)
    decreases |s|
  {
    if |s| > 0 {
      InjectSumIsSum(acc + f(s[0]), s[1..], f);
    }
  }

  /** A sum of non-negative terms is non-negative. */
  lemma {:induction false} SumByNonNegative<T>(s: seq<T>, f: T -> int)
    requires forall i :: 0 <= i < |s| ==> f(s[i]) >= 0
    ensures SumBy(s, f) >= 0
  {
    if |s| > 0 {
      SumByNonNegative(s[1..], f);
    }
  }

  /** The first match in the reversed sequence is the LAST match in the
      original: it exists exactly when some element matches, and every element
      after it fails the test. */
  lemma FindFirstOfReverseIsLast<T>(s: seq<T>, p: T -> bool)
    ensures FindFirst(Reverse(s), p).Some? <==> exists k :: 0 <= k < |s| && p(s[k])
    ensures FindFirst(Reverse(s), p).Some? ==>
      exists k :: 0 <= k < |s| && s[k] == FindFirst(Reverse(s), p).value
                  && forall j :: k < j < |s| ==> !p(s[j])
  {
    var rs := Reverse(s);
    if exists k :: 0 <= k < |s| && p(s[k]) {
      var k :| 0 <= k < |s| && p(s[k]);
      assert rs[|s| - 1 - k] == s[k];
    }
    match FirstIndex(rs, p)
    case None =>
    case Some(i) =>
      var k := |s| - 1 - i;
      assert s[k] == rs[i];
      forall j | k < j < |s|
        ensures !p(s[j])
      {
        assert s[j] == rs[|s| - 1 - j];
      }
  }
}
