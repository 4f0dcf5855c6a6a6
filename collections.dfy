/** The array built-ins the pages use on their in-memory lists:
    `filter`, `filter(...).length` and `reduce` with `+`. */
module Collections {
  import opened Types

  /** `s.findIndex(p)`: the first index whose element passes `p`, or -1. */
  function FirstIndex<T>(s: seq<T>, p: T -> bool): (r: int)
    ensures -1 <= r < |s|
    ensures 0 <= r ==> p(s[r]) && forall j :: 0 <= j < r ==> !p(s[j])
    ensures r == -1 ==> forall j :: 0 <= j < |s| ==> !p(s[j])
  {
    if s == [] then -1
    else if p(s[0]) then 0
    else var k := FirstIndex(s[1..], p); if k < 0 then -1 else k + 1
  }

  /** The first index is determined by where `p` first holds. */
  lemma FirstIndexIs<T>(s: seq<T>, p: T -> bool, k: int)
    requires (0 <= k < |s| && p(s[k]) && forall j :: 0 <= j < k ==> !p(s[j]))
      || (k == -1 && forall j :: 0 <= j < |s| ==> !p(s[j]))
    ensures FirstIndex(s, p) == k
  {
    var f := FirstIndex(s, p);
    if k >= 0 {
      assert p(s[k]);
    }
  }

  /** `s.find(p)`: the first element that passes `p`, if any. */
  function Find<T>(s: seq<T>, p: T -> bool): (r: Option<T>)
    ensures r.Some? <==> exists i :: 0 <= i < |s| && p(s[i])
    ensures r.Some? ==> r.value == s[FirstIndex(s, p)]
  {
    var k := FirstIndex(s, p);
    if k < 0 then None else Some(s[k])
  }

  /** `r` is `s` with some elements left out, the rest in their original order. */
  predicate IsSubsequence<T(==)>(r: seq<T>, s: seq<T>)
    decreases |s|
  {
    r == [] || (s != [] && ((r[0] == s[0] && IsSubsequence(r[1..], s[1..])) || IsSubsequence(r, s[1..])))
  }

  /** `s.filter(p)`. */
  function Filter<T(==)>(s: seq<T>, p: T -> bool): (r: seq<T>)
    ensures |r| <= |s|
    ensures forall x :: x in r ==> x in s && p(x)
    ensures forall x :: x in s && p(x) ==> x in r
    ensures IsSubsequence(r, s)
  {
    if s == [] then []
    else if p(s[0]) then [s[0]] + Filter(s[1..], p)
    else Filter(s[1..], p)
  }

  /** A filter keeps every copy of an element that passes it and none of one
      that does not. */
  lemma {:induction false} FilterMultiplicity<T>(s: seq<T>, p: T -> bool)
    ensures multiset(Filter(s, p)) <= multiset(s)
    ensures forall i :: 0 <= i < |s| ==> multiset(Filter(s, p))[s[i]] == if p(s[i]) then multiset(s)[s[i]] else 0
  {
    if s != [] {
      var rest := Filter(s[1..], p);
      FilterMultiplicity(s[1..], p);
      assert s == [s[0]] + s[1..];
      assert multiset(s) == multiset{s[0]} + multiset(s[1..]);
      if p(s[0]) {
        assert multiset(Filter(s, p)) == multiset{s[0]} + multiset(rest);
      }
      forall i | 0 <= i < |s|
        ensures multiset(Filter(s, p))[s[i]] == if p(s[i]) then multiset(s)[s[i]] else 0
      {
        if s[i] !in s[1..] {
          assert multiset(s[1..])[s[i]] == 0;
          assert multiset(rest)[s[i]] == 0;
        } else {
          var j :| 0 <= j < |s[1..]| && s[1..][j] == s[i];
        }
      }
    }
  }

  /** The positions of `s` whose element passes `p`. */
  function IndicesWhere<T>(s: seq<T>, p: T -> bool): set<int> {
    set i | 0 <= i < |s| && p(s[i])
  }

  /** `s.filter(p).length`: the number of positions whose element passes `p`. */
  function Count<T(==)>(s: seq<T>, p: T -> bool): (r: nat)
    ensures r == |IndicesWhere(s, p)|
  {
    FilterLength(s, p);
    |Filter(s, p)|
  }

  /** A filter keeps one element per position that passes it. */
  lemma {:induction false} FilterLength<T>(s: seq<T>, p: T -> bool)
    ensures |Filter(s, p)| == |IndicesWhere(s, p)|
  {
    if s != [] {
      var front, last := s[..|s| - 1], s[|s| - 1];
      assert s == front + [last];
      FilterConcat(front, [last], p);
      FilterLength(front, p);
      IndicesOfAppend(front, last, p);
    }
  }

  /** Appending an element adds its position when it passes `p`. */
  lemma IndicesOfAppend<T>(front: seq<T>, last: T, p: T -> bool)
    ensures |IndicesWhere(front + [last], p)| == |IndicesWhere(front, p)| + if p(last) then 1 else 0
  {
    var before, after := IndicesWhere(front, p), IndicesWhere(front + [last], p);
    IndicesBeforeLast(front, last, p);
    if p(last) {
      assert |front| in after;
      assert after == before + {|front|};
    } else {
      assert |front| !in after;
      assert after == before;
    }
  }

  /** Below the appended position, the passing positions are those of the front. */
  lemma IndicesBeforeLast<T>(front: seq<T>, last: T, p: T -> bool)
    ensures IndicesWhere(front + [last], p) - {|front|} == IndicesWhere(front, p)
  {
    var s := front + [last];
    forall i | 0 <= i < |front| ensures s[i] == front[i] {
    }
  }

  /** Filtering commutes with concatenation. */
  lemma {:induction false} FilterConcat<T>(a: seq<T>, b: seq<T>, p: T -> bool)
    ensures Filter(a + b, p) == Filter(a, p) + Filter(b, p)
  {
    if a != [] {
      assert (a + b)[1..] == a[1..] + b;
      FilterConcat(a[1..], b, p);
    } else {
      assert a + b == b;
    }
  }

  /** A filter and its complement split a list: their lengths add up. */
  lemma {:induction false} FilterComplement<T>(s: seq<T>, p: T -> bool, q: T -> bool)
    requires forall x :: q(x) == !p(x)
    ensures Count(s, p) + Count(s, q) == |s|
  {
    if s != [] {
      FilterComplement(s[1..], p, q);
    }
  }

  /** A filter keeps everything exactly when every element passes it. */
  lemma {:induction false} FilterAll<T>(s: seq<T>, p: T -> bool)
    requires forall i :: 0 <= i < |s| ==> p(s[i])
    ensures Filter(s, p) == s
  {
    if s != [] {
      FilterAll(s[1..], p);
    }
  }

  /** `s.map(x => p(x) ? f(x) : x)`: the elements that pass `p` are replaced by
      their image under `f`, every other element stays where it was. */
  function UpdateWhere<T>(s: seq<T>, p: T -> bool, f: T -> T): (r: seq<T>)
    ensures |r| == |s|
    ensures forall i :: 0 <= i < |s| && p(s[i]) ==> r[i] == f(s[i])
    ensures forall i :: 0 <= i < |s| && !p(s[i]) ==> r[i] == s[i]
  {
    if s == [] then [] else [if p(s[0]) then f(s[0]) else s[0]] + UpdateWhere(s[1..], p, f)
  }

  /** An update that keeps its elements selected and undoes itself restores the
      list when it is applied twice. */
  lemma UpdateWhereTwice<T>(s: seq<T>, p: T -> bool, f: T -> T)
    requires forall x :: p(x) ==> p(f(x)) && f(f(x)) == x
    ensures UpdateWhere(UpdateWhere(s, p, f), p, f) == s
  {
    var once := UpdateWhere(s, p, f);
    var twice := UpdateWhere(once, p, f);
    forall i | 0 <= i < |s| ensures twice[i] == s[i] {
      if p(s[i]) {
        assert p(once[i]);
      }
    }
  }

  /** `s.reduce((sum, x) => sum + f(x), 0)`. */
  function SumOf<T>(s: seq<T>, f: T -> int): int {
    if s == [] then 0 else f(s[0]) + SumOf(s[1..], f)
  }

  /** A sum splits over the elements that pass a test and those that do not. */
  lemma {:induction false} SumOfSplit<T>(s: seq<T>, f: T -> int, p: T -> bool, q: T -> bool)
    requires forall x :: q(x) == !p(x)
    ensures SumOf(s, f) == SumOf(Filter(s, p), f) + SumOf(Filter(s, q), f)
  {
    if s != [] {
      SumOfSplit(s[1..], f, p, q);
      if p(s[0]) {
        assert ([s[0]] + Filter(s[1..], p))[1..] == Filter(s[1..], p);
      } else {
        assert ([s[0]] + Filter(s[1..], q))[1..] == Filter(s[1..], q);
      }
    }
  }
}
