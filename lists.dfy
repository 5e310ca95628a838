/** Order-preserving filtering, as Java's stream().filter and JavaScript's Array.filter do it. */
module Lists {
  /** The elements of s that satisfy p, in their original order. */
  function Filter<T>(s: seq<T>, p: T -> bool): (r: seq<T>)
    ensures |r| <= |s|
    ensures forall k :: 0 <= k < |r| ==> r[k] in s && p(r[k])
    ensures forall k :: 0 <= k < |s| && p(s[k]) ==> s[k] in r
  {
    if s == [] then [] else (if p(s[0]) then [s[0]] else []) + Filter(s[1..], p)
  }

  /** An element is kept exactly when it occurs in s and satisfies p. */
  lemma FilterMembers<T>(s: seq<T>, p: T -> bool)
    ensures forall x :: x in Filter(s, p) <==> x in s && p(x)
  {
    var r := Filter(s, p);
    forall x ensures x in r <==> x in s && p(x) {
      if x in r {
        var k :| 0 <= k < |r| && r[k] == x;
      }
      if x in s && p(x) {
        var k :| 0 <= k < |s| && s[k] == x;
      }
    }
  }

  /** Filtering a concatenation filters each part: the order of the kept elements is the original one. */
  lemma {:induction false} FilterAppend<T>(a: seq<T>, b: seq<T>, p: T -> bool)
    ensures Filter(a + b, p) == Filter(a, p) + Filter(b, p)
  {
    if a == [] {
      assert a + b == b;
    } else {
      assert (a + b)[1..] == a[1..] + b;
      FilterAppend(a[1..], b, p);
    }
  }

  /** A filter that keeps everything returns the sequence unchanged. */
  lemma {:induction false} FilterKeepsAll<T>(s: seq<T>, p: T -> bool)
    requires forall k :: 0 <= k < |s| ==> p(s[k])
    ensures Filter(s, p) == s
  {
    if s != [] {
      FilterKeepsAll(s[1..], p);
    }
  }

  predicate Increasing(s: seq<int>) {
    forall i, j :: 0 <= i < j < |s| ==> s[i] < s[j]
  }

  predicate Decreasing(s: seq<int>) {
    forall i, j :: 0 <= i < j < |s| ==> s[i] > s[j]
  }

  /** Putting a smaller element in front keeps a sequence strictly increasing. */
  lemma IncreasingCons(x: int, r: seq<int>)
    requires Increasing(r) && forall k :: 0 <= k < |r| ==> x < r[k]
    ensures Increasing([x] + r)
  {
    var c := [x] + r;
    forall i, j | 0 <= i < j < |c| ensures c[i] < c[j] {
      assert c[j] == r[j - 1];
      if i > 0 {
        assert c[i] == r[i - 1];
      }
    }
  }

  /** Putting a larger element in front keeps a sequence strictly decreasing. */
  lemma DecreasingCons(x: int, r: seq<int>)
    requires Decreasing(r) && forall k :: 0 <= k < |r| ==> x > r[k]
    ensures Decreasing([x] + r)
  {
    var c := [x] + r;
    forall i, j | 0 <= i < j < |c| ensures c[i] > c[j] {
      assert c[j] == r[j - 1];
      if i > 0 {
        assert c[i] == r[i - 1];
      }
    }
  }

  /** Filtering keeps a strictly increasing sequence strictly increasing. */
  lemma {:induction false} FilterIncreasing(s: seq<int>, p: int -> bool)
    requires Increasing(s)
    ensures Increasing(Filter(s, p))
  {
    if s != [] {
      var tail := s[1..];
      assert Increasing(tail) by {
        forall i, j | 0 <= i < j < |tail| ensures tail[i] < tail[j] {
          assert tail[i] == s[i + 1] && tail[j] == s[j + 1];
        }
      }
      FilterIncreasing(tail, p);
      var rest := Filter(tail, p);
      forall k | 0 <= k < |rest| ensures s[0] < rest[k] {
        var m :| 0 <= m < |tail| && tail[m] == rest[k];
        assert s[m + 1] == rest[k];
      }
      if p(s[0]) {
        IncreasingCons(s[0], rest);
      }
    }
  }

  /** Filtering keeps a strictly decreasing sequence strictly decreasing. */
  lemma {:induction false} FilterDecreasing(s: seq<int>, p: int -> bool)
    requires Decreasing(s)
    ensures Decreasing(Filter(s, p))
  {
    if s != [] {
      var tail := s[1..];
      assert Decreasing(tail) by {
        forall i, j | 0 <= i < j < |tail| ensures tail[i] > tail[j] {
          assert tail[i] == s[i + 1] && tail[j] == s[j + 1];
        }
      }
      FilterDecreasing(tail, p);
      var rest := Filter(tail, p);
      forall k | 0 <= k < |rest| ensures s[0] > rest[k] {
        var m :| 0 <= m < |tail| && tail[m] == rest[k];
        assert s[m + 1] == rest[k];
      }
      if p(s[0]) {
        DecreasingCons(s[0], rest);
      }
    }
  }

  /** Every occurrence of x removed, everything else kept in order (Array.filter(v => v !== x)). */
  function Without<T(==)>(s: seq<T>, x: T): (r: seq<T>)
    ensures x !in r
    ensures forall k :: 0 <= k < |r| ==> r[k] in s
    ensures forall k :: 0 <= k < |s| && s[k] != x ==> s[k] in r
  {
    Filter(s, y => y != x)
  }

  /** Removing from a concatenation removes from each part. */
  lemma {:induction false} WithoutAppend<T>(a: seq<T>, b: seq<T>, x: T)
    ensures Without(a + b, x) == Without(a, x) + Without(b, x)
  {
    if a == [] {
      assert a + b == b;
    } else {
      assert (a + b)[1..] == a[1..] + b;
      WithoutAppend(a[1..], b, x);
    }
  }
}
