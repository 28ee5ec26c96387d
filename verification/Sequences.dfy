/** Sequences: filtering, reversing, and lists that stand within one another. */
module Sequences {
  import opened Basics

  // ----- parts -----

  lemma BothParts<T>(a: seq<T>, b: seq<T>, c: seq<T>, d: seq<T>)
    requires |a| <= |c| && |b| <= |d|
    ensures a + b == c + d <==> a == c && b == d
  {
    if a + b == c + d {
      assert (a + b)[..|a|] == a && (c + d)[..|c|] == c;
      assert (a + b)[|a|..] == b && (c + d)[|c|..] == d;
    }
  }

  lemma SameSplit<T>(a: seq<T>, b: seq<T>, c: seq<T>, d: seq<T>)
    requires a + b == c + d && |a| == |c|
    ensures a == c && b == d
  {
    assert (a + b)[..|a|] == a && (c + d)[..|c|] == c;
    assert (a + b)[|a|..] == b && (c + d)[|c|..] == d;
  }

  // ----- filters -----

  lemma {:induction false} FilterNone<T>(s: seq<T>, p: T -> bool)
    requires forall x :: x in s ==> !p(x)
    ensures Filter(s, p) == []
  {
    if s != [] {
      FilterNone(s[1..], p);
    }
  }

  lemma {:induction false} FilterAll<T>(s: seq<T>, p: T -> bool)
    requires forall x :: x in s ==> p(x)
    ensures Filter(s, p) == s
  {
    if s != [] {
      FilterAll(s[1..], p);
    }
  }

  /** Of the elements that pass q, those pass p as well. */
  lemma {:induction false} FilterTwice<T>(s: seq<T>, p: T -> bool, q: T -> bool)
    ensures |Filter(Filter(s, p), q)| <= |Filter(s, q)|
    ensures |Filter(Filter(s, p), q)| == |Filter(s, q)| <==> forall x :: x in s && q(x) ==> p(x)
    ensures |Filter(Filter(s, p), q)| == |Filter(s, q)| ==> Filter(Filter(s, p), q) == Filter(s, q)
  {
    if s != [] {
      FilterTwice(s[1..], p, q);
      assert s == [s[0]] + s[1..];
      if p(s[0]) {
        FilterCons(s[0], Filter(s[1..], p), q);
      }
    }
  }

  lemma {:induction false} FilterKeeps<T>(s: seq<T>, p: T -> bool)
    ensures forall x :: x in Filter(s, p) ==> x in s && p(x)
  {
    forall x | x in Filter(s, p) ensures x in s && p(x) {
      FilterMembers(s, p, x);
    }
  }

  lemma {:induction false} SameFilters<T>(s: seq<T>, p: T -> bool, q: T -> bool)
    requires forall x :: x in s ==> (p(x) <==> q(x))
    ensures Filter(s, p) == Filter(s, q)
  {
    if s != [] {
      SameFilters(s[1..], p, q);
    }
  }

  // ----- reversal -----

  function Reversed<T>(s: seq<T>): seq<T> {
    if s == [] then [] else Reversed(s[1..]) + [s[0]]
  }

  lemma {:induction false} ReversedAt<T>(s: seq<T>)
    ensures |Reversed(s)| == |s| && forall i :: 0 <= i < |s| ==> Reversed(s)[i] == s[|s| - 1 - i]
  {
    if s != [] {
      ReversedAt(s[1..]);
    }
  }

  // ----- lists within lists -----

  /** The elements of a occur in b, in the same order. */
  predicate Within<T(==)>(a: seq<T>, b: seq<T>) {
    a == [] || (b != [] && if a[0] == b[0] then Within(a[1..], b[1..]) else Within(a, b[1..]))
  }

  lemma {:induction false} WithinTail<T>(a: seq<T>, b: seq<T>)
    requires Within(a, b) && a != []
    ensures Within(a[1..], b)
  {
    if a[0] == b[0] {
      if a[1..] != [] {
        if a[1] == b[0] {
          WithinTail(a[1..], b[1..]);
        }
      }
    } else {
      WithinTail(a, b[1..]);
      if a[1..] != [] && a[1] == b[0] {
        WithinTail(a[1..], b[1..]);
      }
    }
  }

  lemma {:induction false} WithinMore<T>(a: seq<T>, x: T, b: seq<T>)
    requires Within(a, b)
    ensures Within(a, [x] + b)
  {
    assert ([x] + b)[1..] == b;
    if a != [] && a[0] == x {
      WithinTail(a, b);
    }
  }

  lemma {:induction false} WithinItself<T>(a: seq<T>)
    ensures Within(a, a)
  {
    if a != [] {
      WithinItself(a[1..]);
    }
  }

  lemma {:induction false} WithinTrans<T>(a: seq<T>, b: seq<T>, c: seq<T>)
    requires Within(a, b) && Within(b, c)
    ensures Within(a, c)
    decreases c
  {
    if a != [] && b != [] {
      if c[0] == b[0] {
        WithinTrans(if a[0] == b[0] then a[1..] else a, b[1..], c[1..]);
      } else {
        WithinTrans(a, b, c[1..]);
        if a[0] == c[0] {
          WithinTail(a, c[1..]);
        }
      }
    }
  }

  lemma {:induction false} WithinAppend<T>(a: seq<T>, b: seq<T>, c: seq<T>, d: seq<T>)
    requires Within(a, b) && Within(c, d)
    ensures Within(a + c, b + d)
    decreases b
  {
    if b == [] {
      assert a + c == c && b + d == d;
    } else {
      assert (b + d)[1..] == b[1..] + d;
      if a == [] {
        WithinAppend([], b[1..], c, d);
        assert b + d == [b[0]] + (b[1..] + d) && [] + c == c && a + c == c;
        WithinMore(c, b[0], b[1..] + d);
      } else if a[0] == b[0] {
        assert (a + c)[1..] == a[1..] + c;
        WithinAppend(a[1..], b[1..], c, d);
      } else {
        WithinAppend(a, b[1..], c, d);
      }
    }
  }

  lemma {:induction false} FilterWithin<T>(s: seq<T>, p: T -> bool)
    ensures Within(Filter(s, p), s)
  {
    if s != [] {
      FilterWithin(s[1..], p);
      var rest := Filter(s[1..], p);
      if p(s[0]) {
        assert ([s[0]] + rest)[1..] == rest;
      } else {
        assert s == [s[0]] + s[1..];
        WithinMore(rest, s[0], s[1..]);
      }
    }
  }

  predicate AllDistinct<T(==)>(s: seq<T>) {
    s != [] ==> s[0] !in s[1..] && AllDistinct(s[1..])
  }

  lemma {:induction false} WithinMembers<T>(a: seq<T>, b: seq<T>)
    requires Within(a, b)
    ensures forall x :: x in a ==> x in b
  {
    if a != [] {
      assert b == [b[0]] + b[1..] && a == [a[0]] + a[1..];
      WithinMembers(if a[0] == b[0] then a[1..] else a, b[1..]);
    }
  }

  /** A list within one without repetitions is settled by its elements. */
  lemma {:induction false} WithinDistinct<T>(a: seq<T>, b: seq<T>)
    requires Within(a, b) && AllDistinct(b)
    ensures a == Filter(b, x => x in a)
  {
    var p := x => x in a;
    if b != [] {
      assert b == [b[0]] + b[1..];
      if a == [] {
        FilterNone(b, p);
      } else if a[0] == b[0] {
        WithinDistinct(a[1..], b[1..]);
        SameFilters(b[1..], p, x => x in a[1..]);
      } else {
        WithinDistinct(a, b[1..]);
        WithinMembers(a, b[1..]);
      }
    }
  }

  /** Two lists with the same elements within one without repetitions are the same. */
  lemma WithinSame<T>(a: seq<T>, c: seq<T>, b: seq<T>)
    requires Within(a, b) && Within(c, b) && AllDistinct(b) && forall x :: x in a <==> x in c
    ensures a == c
  {
    WithinDistinct(a, b);
    WithinDistinct(c, b);
    SameFilters(b, x => x in a, x => x in c);
  }
}
