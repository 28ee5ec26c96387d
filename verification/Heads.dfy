/** The heads found by the database generator: a branch found twice keeps the finding that tells more. */
module Heads {
  import opened Basics
  import opened Tree
  import opened Blocks
  import opened Erasing

  /** The statements of the heads that were found by what they do. */
  function Telling(heads: seq<Head>): set<Stmt> {
    if heads == [] then {} else (if heads[0].kind.CondEhc? then {} else {heads[0].stmt}) + Telling(heads[1..])
  }

  /** Not found by its condition alone while another finding of the same branch is among those in `told`. */
  function NotTold(told: set<Stmt>): Head -> bool {
    (h: Head) => !(h.kind.CondEhc? && h.stmt in told)
  }

  function Cleaned(heads: seq<Head>): seq<Head> {
    Filter(heads, NotTold(Telling(heads)))
  }

  lemma {:induction false} TellingAppend(a: seq<Head>, b: seq<Head>)
    ensures Telling(a + b) == Telling(a) + Telling(b)
  {
    if a == [] {
      assert a + b == b;
    } else {
      assert (a + b)[1..] == a[1..] + b;
      TellingAppend(a[1..], b);
    }
  }

  lemma TellingOne(done: seq<Head>, h: Head)
    ensures Telling(done + [h]) == if h.kind.CondEhc? then Telling(done) else Telling(done) + {h.stmt}
  {
    TellingAppend(done, [h]);
    assert [h][1..] == [];
  }

  lemma {:induction false} TellingMembers(heads: seq<Head>, s: Stmt)
    ensures s in Telling(heads) <==> exists h :: h in heads && !h.kind.CondEhc? && h.stmt == s
  {
    if heads != [] {
      TellingMembers(heads[1..], s);
      assert heads == [heads[0]] + heads[1..];
    }
  }

  lemma {:induction false} NarrowTold(heads: seq<Head>, told: set<Stmt>, s: Stmt)
    ensures Filter(Filter(heads, NotTold(told)), NotTold({s})) == Filter(heads, NotTold(told + {s}))
  {
    if heads != [] {
      NarrowTold(heads[1..], told, s);
      FilterCons(heads[0], Filter(heads[1..], NotTold(told)), NotTold({s}));
    }
  }

  lemma {:induction false} NothingTold(heads: seq<Head>)
    ensures Filter(heads, NotTold({})) == heads
  {
    if heads != [] {
      NothingTold(heads[1..]);
    }
  }

  /** Findings that were dropped tell nothing. */
  lemma {:induction false} DroppedTellNothing(heads: seq<Head>, told: set<Stmt>)
    requires Filter(heads, NotTold(told)) == []
    ensures Telling(heads) == {}
  {
    if heads != [] {
      DroppedTellNothing(heads[1..], told);
    }
  }

  /** The finding the outer walk comes to next, and the dropped ones it skips. */
  lemma NextHead(done: seq<Head>, rest: seq<Head>, told: set<Stmt>) returns (done': seq<Head>, h: Head, more: seq<Head>)
    requires told == Telling(done) && Filter(rest, NotTold(told)) != []
    ensures done + rest == done' + [h] + more && |more| < |rest| && NotTold(told)(h)
    ensures told == Telling(done') && Filter(done', NotTold(told)) == Filter(done, NotTold(told))
    ensures Filter(rest, NotTold(told)) == [h] + Filter(more, NotTold(told))
  {
    hide Filter, Telling, NotTold;
    var n := SkipErased(rest, NotTold(told));
    var skipped := rest[..n];
    DroppedTellNothing(skipped, told);
    TellingAppend(done, skipped);
    assert Telling(done + skipped) == told;
    FilterAppend(done, skipped, NotTold(told));
    assert Filter(done, NotTold(told)) + [] == Filter(done, NotTold(told));
    done', h, more := done + skipped, rest[n], rest[n + 1..];
    assert rest == skipped + [h] + more;
    Joined(done, skipped, h, more);
    FirstAndRest(Filter(rest, NotTold(told)));
  }

  lemma Joined<T>(a: seq<T>, b: seq<T>, x: T, c: seq<T>)
    ensures a + (b + [x] + c) == a + b + [x] + c
  {
  }

  lemma FirstAndRest<T>(s: seq<T>)
    requires s != []
    ensures s == [s[0]] + s[1..]
  {
  }

  class HeadList {
    var heads: seq<Head>

    constructor (heads: seq<Head>)
      ensures this.heads == heads
    {
      this.heads := heads;
    }

    /** Two nested walks over the same list, of which the inner one erases. */
    method CleanDuplicates()
      modifies this
      ensures heads == Cleaned(old(heads))
    {
      hide Filter, Telling, NotTold;
      var i := 0;
      ghost var done, rest, told: set<Stmt> := [], heads, {};
      WalkStarts(heads);
      while i < |heads|
        invariant old(heads) == done + rest && told == Telling(done)
        invariant i == |Filter(done, NotTold(told))|
        invariant heads == Filter(done, NotTold(told)) + Filter(rest, NotTold(told))
        decreases |rest|
      {
        ghost var h, more;
        done, h, more := NextHead(done, rest, told);
        assert heads[i] == h && old(heads) == done + [h] + more;
        if !heads[i].kind.CondEhc? {
          ghost var before, after := Filter(done, NotTold(told)), Filter(more, NotTold(told));
          Accepted(h);
          assert heads[..i] == before && heads == before + ([h] + after);
          heads, i := EraseAround(heads, i, NotTold({heads[i].stmt}));
          OneMoreTold(done, h, more, told);
          told := told + {h.stmt};
        } else {
          OneMoreSkipped(done, h, told);
        }
        i := i + 1;
        done, rest := done + [h], more;
      }
      WalkEnds(done, rest, told);
    }
  }

  lemma WalkStarts(heads: seq<Head>)
    ensures Telling([]) == {} && Filter([], NotTold({})) == [] && Filter(heads, NotTold({})) == heads
  {
    NothingTold(heads);
  }

  lemma Accepted(h: Head)
    requires !h.kind.CondEhc?
    ensures NotTold({h.stmt})(h)
  {
  }

  lemma OneMoreTold(done: seq<Head>, h: Head, more: seq<Head>, told: set<Stmt>)
    requires !h.kind.CondEhc? && told == Telling(done)
    ensures var told' := told + {h.stmt};
            && told' == Telling(done + [h])
            && Filter(Filter(done, NotTold(told)) + ([h] + Filter(more, NotTold(told))), NotTold({h.stmt}))
               == Filter(done + [h], NotTold(told')) + Filter(more, NotTold(told'))
            && |Filter(done + [h], NotTold(told'))| == |Filter(Filter(done, NotTold(told)), NotTold({h.stmt}))| + 1
  {
    hide Filter, Telling, NotTold;
    var told', p := told + {h.stmt}, NotTold({h.stmt});
    TellingOne(done, h);
    Accepted(h);
    TellsItself(told, h);
    NarrowTold(done, told, h.stmt);
    NarrowTold(more, told, h.stmt);
    FilterAround(Filter(done, NotTold(told)), h, Filter(more, NotTold(told)), p);
    FilterSnoc(done, h, NotTold(told'));
    Regroup(Filter(done, NotTold(told')), h, Filter(more, NotTold(told')));
  }

  lemma TellsItself(told: set<Stmt>, h: Head)
    requires !h.kind.CondEhc?
    ensures NotTold(told + {h.stmt})(h)
  {
  }

  lemma Regroup<T>(x: seq<T>, h: T, y: seq<T>)
    ensures x + ([h] + y) == (x + [h]) + y
  {
  }

  lemma OneMoreSkipped(done: seq<Head>, h: Head, told: set<Stmt>)
    requires h.kind.CondEhc? && NotTold(told)(h) && told == Telling(done)
    ensures told == Telling(done + [h]) && Filter(done + [h], NotTold(told)) == Filter(done, NotTold(told)) + [h]
  {
    TellingOne(done, h);
    FilterSnoc(done, h, NotTold(told));
  }

  lemma WalkEnds(done: seq<Head>, rest: seq<Head>, told: set<Stmt>)
    requires told == Telling(done) && Filter(rest, NotTold(told)) == []
    ensures Cleaned(done + rest) == Filter(done, NotTold(told))
  {
    hide Filter, Telling, NotTold;
    DroppedTellNothing(rest, told);
    TellingAppend(done, rest);
    assert Telling(done + rest) == told;
    FilterAppend(done, rest, NotTold(told));
    assert Filter(done, NotTold(told)) + [] == Filter(done, NotTold(told));
  }

  /** A branch is a head after the cleaning exactly when it was one before, and it is then found by its condition only
      if nothing else found it. */
  lemma CleanedHeads(heads: seq<Head>, h: Head)
    ensures h in Cleaned(heads) <==>
            h in heads && (h.kind.CondEhc? ==> forall g :: g in heads && !g.kind.CondEhc? ==> g.stmt != h.stmt)
    ensures (exists g :: g in heads && g.stmt == h.stmt) <==> exists g :: g in Cleaned(heads) && g.stmt == h.stmt
  {
    hide Filter;
    CleanedMember(heads, h);
    if g :| g in heads && g.stmt == h.stmt {
      CleanedMember(heads, g);
      if g !in Cleaned(heads) {
        var g' :| g' in heads && !g'.kind.CondEhc? && g'.stmt == g.stmt;
        CleanedMember(heads, g');
      }
    }
    if g :| g in Cleaned(heads) && g.stmt == h.stmt {
      CleanedMember(heads, g);
    }
  }

  lemma CleanedMember(heads: seq<Head>, h: Head)
    ensures h in Cleaned(heads) <==>
            h in heads && (h.kind.CondEhc? ==> forall g :: g in heads && !g.kind.CondEhc? ==> g.stmt != h.stmt)
  {
    FilterMembers(heads, NotTold(Telling(heads)), h);
    TellingMembers(heads, h.stmt);
  }
}
