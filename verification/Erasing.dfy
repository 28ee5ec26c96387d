/** Passes that erase statements from a block while they walk it. */
module Erasing {
  import opened Basics
  import opened Tree
  import opened Blocks

  function SetTo(v: string): Stmt -> bool {
    (s: Stmt) => !SetsToNegative(s, {v})
  }

  method EraseUnless(ss: seq<Stmt>, p: Stmt -> bool) returns (r: seq<Stmt>)
    ensures r == Filter(ss, p)
  {
    r := ss;
    var i := 0;
    while i < |r|
      invariant i <= |r|
      invariant r[..i] + Filter(r[i..], p) == Filter(ss, p)
      decreases |r| - i
    {
      FilterCons(r[i], r[i + 1..], p);
      assert r[i..] == [r[i]] + r[i + 1..];
      if p(r[i]) {
        assert r[..i + 1] == r[..i] + [r[i]];
        i := i + 1;
      } else {
        var next := r[..i] + r[i + 1..];
        assert next[..i] == r[..i] && next[i..] == r[i + 1..];
        r := next;
      }
    }
    assert r[..i] + [] == r;
  }

  lemma FilterSnoc<T>(s: seq<T>, x: T, p: T -> bool)
    ensures Filter(s + [x], p) == Filter(s, p) + if p(x) then [x] else []
  {
    FilterAppend(s, [x], p);
    FilterCons(x, [], p);
    assert [x] + [] == [x];
  }

  /** One step of an erasing walk that has come to element a. */
  lemma WalkStep<T>(ss: seq<T>, a: nat, p: T -> bool)
    requires a < |ss|
    ensures var kept, kept' := Filter(ss[..a], p), Filter(ss[..a + 1], p);
            && kept + ss[a..] == kept + [ss[a]] + ss[a + 1..]
            && kept' == if p(ss[a]) then kept + [ss[a]] else kept
  {
    FilterSnoc(ss[..a], ss[a], p);
    assert ss[..a + 1] == ss[..a] + [ss[a]];
    assert ss[a..] == [ss[a]] + ss[a + 1..];
  }

  /** Erases what p refuses all over the list, while another iterator stands at an element that p accepts. */
  method EraseAround<T>(ss: seq<T>, at: nat, p: T -> bool) returns (r: seq<T>, i: nat)
    requires at < |ss| && p(ss[at])
    ensures r == Filter(ss, p) && i == |Filter(ss[..at], p)|
  {
    hide Filter;
    r, i := ss, at;
    var j := 0;
    ghost var a := 0;
    assert Filter(ss[..0], p) == [] by { FilterLength(ss[..0], p); }
    while j < |r|
      invariant a <= |ss| && r == Filter(ss[..a], p) + ss[a..] && j == |Filter(ss[..a], p)|
      invariant if a <= at then i == j + at - a else i == |Filter(ss[..at], p)| < j
      decreases |ss| - a
    {
      WalkStep(ss, a, p);
      if p(r[j]) {
        j := j + 1;
      } else {
        r := r[..j] + r[j + 1..];
        if j < i {
          i := i - 1;
        }
      }
      a := a + 1;
    }
    assert ss[..a] == ss && ss[a..] == [];
  }

  lemma {:induction false} SkipErased<T>(ss: seq<T>, p: T -> bool) returns (n: nat)
    requires Filter(ss, p) != []
    ensures n < |ss| && p(ss[n]) && ss[n] == Filter(ss, p)[0]
    ensures Filter(ss[..n], p) == [] && Filter(ss[n + 1..], p) == Filter(ss, p)[1..]
    ensures forall i :: 0 <= i < n ==> !p(ss[i])
  {
    if p(ss[0]) {
      n := 0;
    } else {
      n := SkipErased(ss[1..], p);
      FilterCons(ss[0], ss[1..][..n], p);
      assert ss[..n + 1] == [ss[0]] + ss[1..][..n];
      n := n + 1;
    }
  }

  /** Walks a block and erases its returns, each together with the assignments of negative literals to the variable it
      hands back, wherever in the block they stand. */
  method EraseReturns(ss: seq<Stmt>) returns (r: seq<Stmt>)
    ensures r == WithoutReturns(ss)
  {
    hide Filter, ReturnedVars, SetsToNegative;
    r := ss;
    var i := 0;
    ghost var done, rest, vars: set<string> := [], ss, {};
    Unrestricted(ss);
    Nothing(vars);
    while i < |r|
      invariant ss == done + rest && vars == ReturnedVars(done)
      invariant i == |Filter(done, NoReturn(vars))| && r == Filter(done, NoReturn(vars)) + Filter(rest, NotSet(vars))
      decreases |rest|
    {
      ghost var s, more;
      done, s, more := NextToVisit(done, rest, vars);
      assert r[i] == s && ss == done + [s] + more;
      ReturnDone(done, s);
      if r[i].kind.Return? {
        if r[i].kind.variable.Some? {
          var v := r[i].kind.variable.value;
          ghost var before, after := Filter(done, NoReturn(vars)), Filter(more, NotSet(vars));
          ReturnStays(s, v);
          assert r[..i] == before;
          r, i := EraseAround(r, i, SetTo(v));
          FilterAround(before, s, after, SetTo(v));
          NarrowReturn(done, vars, v);
          NarrowSet(more, vars, v);
          vars := vars + {v};
        }
        r := r[..i] + r[i + 1..];
      } else {
        i := i + 1;
      }
      FilterSnoc(done, s, NoReturn(vars));
      done, rest := done + [s], more;
    }
    NothingMore(done, rest, vars);
  }

  lemma Nothing(vars: set<string>)
    ensures Filter([], NoReturn(vars)) == [] && ReturnedVars([]) == {}
  {
  }

  lemma ReturnStays(s: Stmt, v: string)
    requires s.kind.Return?
    ensures SetTo(v)(s)
  {
  }

  /** The statement the iterator meets next, and the erased assignments it never meets. */
  lemma NextToVisit(done: seq<Stmt>, rest: seq<Stmt>, vars: set<string>)
      returns (done': seq<Stmt>, s: Stmt, more: seq<Stmt>)
    requires vars == ReturnedVars(done) && Filter(rest, NotSet(vars)) != []
    ensures done + rest == done' + [s] + more && |more| < |rest| && NotSet(vars)(s)
    ensures vars == ReturnedVars(done') && Filter(done', NoReturn(vars)) == Filter(done, NoReturn(vars))
    ensures Filter(rest, NotSet(vars)) == [s] + Filter(more, NotSet(vars))
  {
    var n := SkipErased(rest, NotSet(vars));
    SkippedLeavesNothing(done, rest[..n], vars);
    done', s, more := done + rest[..n], rest[n], rest[n + 1..];
    assert rest == rest[..n] + [s] + more;
  }

  /** What an iterator that has not come by yet keeps: everything but the assignments to returned variables. */
  function NotSet(vars: set<string>): Stmt -> bool {
    (s: Stmt) => !SetsToNegative(s, vars)
  }

  lemma {:induction false} Unrestricted(ss: seq<Stmt>)
    ensures Filter(ss, NotSet({})) == ss
  {
    if ss != [] {
      Unrestricted(ss[1..]);
    }
  }

  lemma ReturnDone(done: seq<Stmt>, s: Stmt)
    ensures ReturnedVars(done + [s]) == ReturnedVars(done) + match s.kind case Return(Some(v)) => {v} case _ => {}
  {
    ReturnedAppend(done, [s]);
    assert [s][1..] == [];
  }

  lemma {:induction false} ReturnedAppend(a: seq<Stmt>, b: seq<Stmt>)
    ensures ReturnedVars(a + b) == ReturnedVars(a) + ReturnedVars(b)
  {
    if a == [] {
      assert a + b == b;
    } else {
      assert (a + b)[1..] == a[1..] + b;
      ReturnedAppend(a[1..], b);
    }
  }

  /** Assignments that were already erased add neither statements nor returned variables. */
  lemma SkippedLeavesNothing(done: seq<Stmt>, skipped: seq<Stmt>, vars: set<string>)
    requires Filter(skipped, NotSet(vars)) == []
    ensures Filter(done + skipped, NoReturn(vars)) == Filter(done, NoReturn(vars))
    ensures ReturnedVars(done + skipped) == ReturnedVars(done)
  {
    AllSet(skipped, vars);
    FilterAppend(done, skipped, NoReturn(vars));
    ReturnedAppend(done, skipped);
    assert Filter(done, NoReturn(vars)) + [] == Filter(done, NoReturn(vars));
  }

  lemma {:induction false} AllSet(ss: seq<Stmt>, vars: set<string>)
    requires Filter(ss, NotSet(vars)) == []
    ensures Filter(ss, NoReturn(vars)) == [] && ReturnedVars(ss) == {}
  {
    if ss != [] {
      AllSet(ss[1..], vars);
    }
  }

  lemma {:induction false} NarrowReturn(ss: seq<Stmt>, vars: set<string>, v: string)
    ensures Filter(Filter(ss, NoReturn(vars)), SetTo(v)) == Filter(ss, NoReturn(vars + {v}))
  {
    if ss != [] {
      NarrowReturn(ss[1..], vars, v);
      FilterCons(ss[0], Filter(ss[1..], NoReturn(vars)), SetTo(v));
    }
  }

  lemma {:induction false} NarrowSet(ss: seq<Stmt>, vars: set<string>, v: string)
    ensures Filter(Filter(ss, NotSet(vars)), SetTo(v)) == Filter(ss, NotSet(vars + {v}))
  {
    if ss != [] {
      NarrowSet(ss[1..], vars, v);
      FilterCons(ss[0], Filter(ss[1..], NotSet(vars)), SetTo(v));
    }
  }

  lemma FilterAround<T>(before: seq<T>, x: T, after: seq<T>, p: T -> bool)
    requires p(x)
    ensures Filter(before + ([x] + after), p) == Filter(before, p) + ([x] + Filter(after, p))
  {
    FilterAppend(before, [x] + after, p);
    FilterCons(x, after, p);
  }

  lemma NothingMore(done: seq<Stmt>, rest: seq<Stmt>, vars: set<string>)
    requires vars == ReturnedVars(done) && Filter(rest, NotSet(vars)) == []
    ensures WithoutReturns(done + rest) == Filter(done, NoReturn(vars))
  {
    SkippedLeavesNothing(done, rest, vars);
  }
}
