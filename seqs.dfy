/** `Array.prototype.filter` and the facts about it that the components rely on. */
module Seqs {

  /** `s.filter(p)`: the elements satisfying `p`, in their original order. */
  function Filter<T>(p: T -> bool, s: seq<T>): (r: seq<T>)
    ensures |r| <= |s|
    ensures forall i :: 0 <= i < |r| ==> p(r[i])
  {
    if s == [] then [] else (if p(s[0]) then [s[0]] else []) + Filter(p, s[1..])
  }

  /** `a` can be obtained from `b` by deleting elements (order is kept). */
  predicate IsSubsequence<T(==)>(a: seq<T>, b: seq<T>) {
    if a == [] then true
    else if b == [] then false
    else if a[0] == b[0] then IsSubsequence(a[1..], b[1..])
    else IsSubsequence(a, b[1..])
  }

  lemma {:induction false} FilterMembership<T>(p: T -> bool, s: seq<T>, x: T)
    ensures x in Filter(p, s) <==> x in s && p(x)
  {
    if s != [] {
      FilterMembership(p, s[1..], x);
      assert s == [s[0]] + s[1..];
    }
  }

  lemma {:induction false} SubsequenceOfTail<T>(a: seq<T>, b: seq<T>)
    requires b != [] && IsSubsequence(a, b[1..])
    ensures IsSubsequence(a, b)
    decreases |a| + |b|
  {
    if a != [] && a[0] == b[0] {
      // b[1..] contains a, hence also a[1..]; skip b[0] as well
      SubsequenceDropHead(a, b[1..]);
    }
  }

  lemma {:induction false} SubsequenceDropHead<T>(a: seq<T>, b: seq<T>)
    requires a != [] && IsSubsequence(a, b)
    ensures IsSubsequence(a[1..], b)
    decreases |a| + |b|
  {
    if a[0] == b[0] {
      if a[1..] != [] {
        SubsequenceOfTail(a[1..], b);
      }
    } else {
      SubsequenceDropHead(a, b[1..]);
      SubsequenceOfTail(a[1..], b);
    }
  }

  lemma {:induction false} FilterIsSubsequence<T>(p: T -> bool, s: seq<T>)
    ensures IsSubsequence(Filter(p, s), s)
  {
    if s != [] {
      FilterIsSubsequence(p, s[1..]);
      if p(s[0]) {
        assert Filter(p, s) == [s[0]] + Filter(p, s[1..]);
      } else {
        assert Filter(p, s) == Filter(p, s[1..]);
        if Filter(p, s) != [] {
          SubsequenceOfTail(Filter(p, s), s);
        }
      }
    }
  }

  lemma {:induction false} FilterKeepsAll<T>(p: T -> bool, s: seq<T>)
    requires forall i :: 0 <= i < |s| ==> p(s[i])
    ensures Filter(p, s) == s
  {
    if s != [] {
      FilterKeepsAll(p, s[1..]);
    }
  }

  lemma {:induction false} FilterKeepsNone<T>(p: T -> bool, s: seq<T>)
    requires forall i :: 0 <= i < |s| ==> !p(s[i])
    ensures Filter(p, s) == []
  {
    if s != [] {
      FilterKeepsNone(p, s[1..]);
    }
  }

  lemma {:induction false} FilterAppend<T>(p: T -> bool, a: seq<T>, b: seq<T>)
    ensures Filter(p, a + b) == Filter(p, a) + Filter(p, b)
  {
    if a != [] {
      assert (a + b)[1..] == a[1..] + b;
      FilterAppend(p, a[1..], b);
    } else {
      assert a + b == b;
    }
  }

  /** When every element satisfies exactly one of `p` and `q`, the two filters together
      keep every element once. */
  lemma {:induction false} FilterPartitionLength<T>(p: T -> bool, q: T -> bool, s: seq<T>)
    requires forall i :: 0 <= i < |s| ==> (p(s[i]) <==> !q(s[i]))
    ensures |Filter(p, s)| + |Filter(q, s)| == |s|
  {
    if s != [] {
      FilterPartitionLength(p, q, s[1..]);
    }
  }

  lemma FilterFromFirstSecond<T>(p: T -> bool, q: T -> bool, s: seq<T>)
    requires s != [] && q(s[0])
    requires forall i :: 0 <= i < |s| ==> (p(s[i]) <==> !q(s[i]))
    requires forall j :: 0 < j < |s| ==> q(s[j])
    ensures Filter(p, s) + Filter(q, s) == s
  {
    FilterKeepsNone(p, s);
    FilterKeepsAll(q, s);
  }

  /** If moreover the `q` elements come after all the `p` elements, the `p` filter followed
      by the `q` filter is the sequence itself. */
  lemma {:induction false} FilterSplitOrdered<T>(p: T -> bool, q: T -> bool, s: seq<T>)
    requires forall i :: 0 <= i < |s| ==> (p(s[i]) <==> !q(s[i]))
    requires forall i, j :: 0 <= i < j < |s| && q(s[i]) ==> q(s[j])
    ensures Filter(p, s) + Filter(q, s) == s
    decreases |s|, 1
  {
    if s != [] {
      if q(s[0]) {
        FilterFromFirstSecond(p, q, s);
      } else {
        FilterSplitTail(p, q, s);
      }
    }
  }

  lemma {:induction false} FilterSplitTail<T>(p: T -> bool, q: T -> bool, s: seq<T>)
    requires s != [] && p(s[0]) && !q(s[0])
    requires forall i :: 0 <= i < |s| ==> (p(s[i]) <==> !q(s[i]))
    requires forall i, j :: 0 <= i < j < |s| && q(s[i]) ==> q(s[j])
    ensures Filter(p, s) + Filter(q, s) == s
    decreases |s|, 0
  {
    var t := s[1..];
    assert forall i :: 0 <= i < |t| ==> (p(t[i]) <==> !q(t[i])) by {
      forall i | 0 <= i < |t| ensures p(t[i]) <==> !q(t[i]) {
        assert t[i] == s[i + 1];
      }
    }
    assert forall i, j :: 0 <= i < j < |t| && q(t[i]) ==> q(t[j]) by {
      forall i, j | 0 <= i < j < |t| && q(t[i]) ensures q(t[j]) {
        assert t[i] == s[i + 1] && t[j] == s[j + 1];
      }
    }
    FilterSplitOrdered(p, q, t);
    assert s == [s[0]] + t;
  }
}
