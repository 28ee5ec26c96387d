/** The order of the outers against the order of an error path. */
module UndoOrder {
  import opened Basics
  import opened MaskWord
  import opened Sequences
  import opened Tree
  import opened Blocks
  import opened Slots
  import opened Outers
  import opened Ladder

  // ----- an error path stands in the body in its order -----

  lemma {:induction false} Included<T>(x: T, b: seq<T>)
    requires x in b
    ensures Within([x], b)
  {
    assert [x][1..] == [];
    if b[0] != x {
      assert b == [b[0]] + b[1..];
      Included(x, b[1..]);
    }
  }

  lemma {:induction false} CollectedWithin(ss: seq<Stmt>)
    ensures Within(Cores(UpToReturn(ss)), Flatten(ss))
  {
    if ss != [] {
      var s, inside, after := ss[0], Flatten(ss[0].kids), Flatten(ss[1..]);
      CoreInside(s);
      Included(Core(s), [s] + inside);
      assert Flatten(ss) == ([s] + inside) + after;
      if s.kind.Return? {
        WithinAppend([Core(s)], [s] + inside, [], after);
        assert [s][1..] == [] && [Core(s)] + [] == [Core(s)];
      } else {
        CollectedWithin(ss[1..]);
        var rest := UpToReturn(ss[1..]);
        assert ([s] + rest)[1..] == rest;
        WithinAppend([Core(s)], [s] + inside, Cores(rest), after);
      }
    }
  }

  lemma {:induction false} FromWithin(ss: seq<Stmt>, target: nat)
    ensures Within(Flatten(From(ss, target)), Flatten(ss))
  {
    WithinItself(Flatten(ss));
    if ss != [] && ss[0].id != target {
      FromWithin(ss[1..], target);
      var front := [ss[0]] + Flatten(ss[0].kids);
      WithinAppend([], front, Flatten(From(ss[1..], target)), Flatten(ss[1..]));
      assert [] + Flatten(From(ss[1..], target)) == Flatten(From(ss[1..], target));
    }
  }

  lemma {:induction false} KidsWithin(forest: seq<Stmt>, s: Stmt)
    requires s in Flatten(forest)
    ensures Within(Flatten(s.kids), Flatten(forest))
  {
    var first, inside, after := forest[0], Flatten(forest[0].kids), Flatten(forest[1..]);
    assert Flatten(forest) == [first] + inside + after;
    if s == first {
      WithinItself(inside);
      WithinMore(inside, first, inside);
      WithinAppend(inside, [first] + inside, [], after);
      assert inside + [] == inside;
    } else if s in inside {
      KidsWithin(first.kids, s);
      WithinMore(Flatten(s.kids), first, inside);
      WithinAppend(Flatten(s.kids), [first] + inside, [], after);
      assert Flatten(s.kids) + [] == Flatten(s.kids);
    } else {
      KidsWithin(forest[1..], s);
      WithinAppend([], [first] + inside, Flatten(s.kids), after);
      assert [] + Flatten(s.kids) == Flatten(s.kids);
    }
  }

  lemma FilteredWithin(ss: seq<Stmt>)
    ensures Within(Filtered(ss), ss)
  {
    var a := Filter(ss, NotBlacklisted());
    var b := Filter(a, NotLoop());
    var c := Filter(b, NotLock());
    FilterWithin(ss, NotBlacklisted());
    FilterWithin(a, NotLoop());
    FilterWithin(b, NotLock());
    FilterWithin(c, NoReturn(ReturnedVars(c)));
    WithinTrans(b, a, ss);
    WithinTrans(c, b, ss);
    WithinTrans(Filtered(ss), c, ss);
  }

  /** What the passes leave of an error path stands in the body in that order. */
  lemma PathWithin(body: Stmt, target: nat)
    requires ParentOn(Path([body], target)).Some?
    ensures Within(Filtered(Collected(ParentOn(Path([body], target)).value.kids, target)), Below(body))
  {
    hide Filtered;
    var path := Path([body], target);
    var parent := path[|path|-2];
    assert [body][1..] == [];
    assert Flatten([body]) == [body] + Flatten(body.kids) + [];
    PathInside([body], target, parent);
    if parent == body {
      WithinItself(Below(body));
    } else {
      KidsWithin(body.kids, parent);
    }
    var tail := From(parent.kids, target);
    CollectedWithin(tail);
    FilteredWithin(Cores(UpToReturn(tail)));
    FromWithin(parent.kids, target);
    WithinTrans(Filtered(Cores(UpToReturn(tail))), Cores(UpToReturn(tail)), Flatten(tail));
    WithinTrans(Filtered(Cores(UpToReturn(tail))), Flatten(tail), Flatten(parent.kids));
    WithinTrans(Filtered(Cores(UpToReturn(tail))), Flatten(parent.kids), Below(body));
  }

  lemma {:induction false} DistinctAppend<T>(a: seq<T>, b: seq<T>)
    requires AllDistinct(a) && AllDistinct(b) && forall x :: x in a ==> x !in b
    ensures AllDistinct(a + b)
  {
    if a == [] {
      assert a + b == b;
    } else {
      assert (a + b)[1..] == a[1..] + b;
      DistinctAppend(a[1..], b);
    }
  }

  lemma {:induction false} UniqueIsDistinct(forest: seq<Stmt>)
    requires Unique(forest)
    ensures AllDistinct(Flatten(forest))
  {
    if forest != [] {
      var first, inside, after := forest[0], Flatten(forest[0].kids), Flatten(forest[1..]);
      UniqueIsDistinct(first.kids);
      UniqueIsDistinct(forest[1..]);
      forall s | s in inside ensures s.id in Ids(first.kids) {
        FlattenIds(first.kids, s);
      }
      forall s | s in after ensures s.id in Ids(forest[1..]) {
        FlattenIds(forest[1..], s);
      }
      assert ([first] + inside)[1..] == inside;
      DistinctAppend([first] + inside, after);
    }
  }

  // ----- which statement an outer is -----

  /** s is the first of the statements that pass p and are written like it. */
  predicate WrittenFirst(ss: seq<Stmt>, p: Stmt -> bool, s: Stmt) {
    p(s) && exists i :: 0 <= i < |ss| && ss[i] == s && forall j :: 0 <= j < i && p(ss[j]) ==> ss[j].source != s.source
  }

  /** s is the first statement that is written like it. */
  predicate Leads(ss: seq<Stmt>, s: Stmt) {
    ss != [] && (ss[0] == s || (ss[0].source != s.source && Leads(ss[1..], s)))
  }

  lemma {:induction false} FirstLeads(ss: seq<Stmt>, p: Stmt -> bool, s: Stmt, i: nat)
    requires i < |ss| && ss[i] == s && p(s) && forall j :: 0 <= j < i && p(ss[j]) ==> ss[j].source != s.source
    ensures Leads(Filter(ss, p), s)
  {
    if i > 0 {
      forall j | 0 <= j < i - 1 && p(ss[1..][j]) ensures ss[1..][j].source != s.source {
        assert ss[1..][j] == ss[j + 1];
      }
      FirstLeads(ss[1..], p, s, i - 1);
    }
  }

  lemma {:induction false} LeadsOthers(outers: seq<Outer>, source: string, s: Stmt)
    requires Leads(StmtsOf(outers), s) && s.source != source
    ensures Leads(StmtsOf(Filter(outers, OtherSource(source))), s)
  {
    if outers[0].stmt != s {
      LeadsOthers(outers[1..], source, s);
    }
  }

  lemma {:induction false} LeadersAreHeads(outers: seq<Outer>, s: Stmt)
    requires Leads(StmtsOf(outers), s)
    ensures s in StmtsOf(Merge(outers))
    decreases |outers|
  {
    var first, rest := outers[0], outers[1..];
    var others := Filter(rest, OtherSource(first.stmt.source));
    FilterLength(rest, OtherSource(first.stmt.source));
    assert Merge(outers)[1..] == Merge(others) && Merge(outers)[0].stmt == first.stmt;
    assert StmtsOf(Merge(outers)) == [first.stmt] + StmtsOf(Merge(others));
    if first.stmt != s {
      assert StmtsOf(outers)[1..] == StmtsOf(rest);
      LeadsOthers(rest, first.stmt.source, s);
      LeadersAreHeads(others, s);
    }
  }

  lemma {:induction false} StmtsOfFilter(outers: seq<Outer>, p: Outer -> bool)
    ensures Within(StmtsOf(Filter(outers, p)), StmtsOf(outers))
  {
    if outers != [] {
      StmtsOfFilter(outers[1..], p);
      var rest := Filter(outers[1..], p);
      if p(outers[0]) {
        assert ([outers[0]] + rest)[1..] == rest;
        assert StmtsOf([outers[0]] + rest) == [outers[0].stmt] + StmtsOf(rest);
        assert ([outers[0].stmt] + StmtsOf(rest))[1..] == StmtsOf(rest);
      } else {
        WithinMore(StmtsOf(rest), outers[0].stmt, StmtsOf(outers[1..]));
      }
    }
  }

  lemma {:induction false} MergeWithin(outers: seq<Outer>)
    ensures Within(StmtsOf(Merge(outers)), StmtsOf(outers))
    decreases |outers|
  {
    if outers != [] {
      var first, rest := outers[0], outers[1..];
      var others := Filter(rest, OtherSource(first.stmt.source));
      FilterLength(rest, OtherSource(first.stmt.source));
      MergeWithin(others);
      StmtsOfFilter(rest, OtherSource(first.stmt.source));
      WithinTrans(StmtsOf(Merge(others)), StmtsOf(others), StmtsOf(rest));
      assert Merge(outers)[1..] == Merge(others) && Merge(outers)[0].stmt == first.stmt;
      assert StmtsOf(Merge(outers))[1..] == StmtsOf(Merge(others));
      assert StmtsOf(outers)[1..] == StmtsOf(rest);
    }
  }

  lemma {:induction false} StmtsOfAsOuters(ss: seq<Stmt>, undoFns: seq<string>)
    ensures StmtsOf(AsOuters(ss, undoFns)) == ss
  {
    if ss != [] {
      StmtsOfAsOuters(ss[1..], undoFns);
      assert AsOuters(ss, undoFns)[1..] == AsOuters(ss[1..], undoFns);
    }
  }

  lemma {:induction false} StmtsMembers(outers: seq<Outer>, s: Stmt)
    ensures s in StmtsOf(outers) <==> exists o :: o in outers && o.stmt == s
  {
    if outers != [] {
      StmtsMembers(outers[1..], s);
      assert outers == [outers[0]] + outers[1..];
    }
  }

  /** The outers of the function, whatever has been added to them since they were collected and merged. */
  predicate OutersOf(outers: seq<Outer>, undoFns: seq<string>, body: Stmt) {
    var merged := Merge(OutersIn(body.kids, undoFns, body));
    && StmtsOf(outers) == StmtsOf(merged) && DistinctSources(outers) && |outers| == |merged|
    && forall i :: 0 <= i < |outers| ==>
         outers[i].duplicates == merged[i].duplicates && outers[i].indexes == merged[i].indexes
  }

  /** Every statement of the list that is known as an outer is itself an undo call, and the first one of its text in
      the body. */
  predicate AllWrittenFirst(ss: seq<Stmt>, outers: seq<Outer>, undoFns: seq<string>, body: Stmt) {
    forall s :: s in ss && HasSource(outers, s.source) ==> WrittenFirst(Below(body), IsOuterUndo(undoFns, body), s)
  }

  /** Then the outers that the list names are its known statements, in the order of the list. */
  lemma NamedInOrder(ss: seq<Stmt>, outers: seq<Outer>, undoFns: seq<string>, body: Stmt)
    requires Within(ss, Below(body)) && AllDistinct(Below(body)) && OutersOf(outers, undoFns, body)
    requires AllWrittenFirst(ss, outers, undoFns, body)
    ensures StmtsOf(Filter(outers, WrittenIn(ss))) == Filter(ss, KnownTo(outers))
  {
    hide IsOuterUndo, WrittenFirst, AllDistinct, Merge, AsOuters;
    var p := IsOuterUndo(undoFns, body);
    var collected := Filter(Below(body), p);
    var named, known := Filter(outers, WrittenIn(ss)), Filter(ss, KnownTo(outers));
    assert Within(StmtsOf(named), Below(body)) by {
      StmtsOfFilter(outers, WrittenIn(ss));
      MergeWithin(AsOuters(collected, undoFns));
      StmtsOfAsOuters(collected, undoFns);
      FilterWithin(Below(body), p);
      WithinTrans(StmtsOf(outers), collected, Below(body));
      WithinTrans(StmtsOf(named), StmtsOf(outers), Below(body));
    }
    assert Within(known, Below(body)) by {
      FilterWithin(ss, KnownTo(outers));
      WithinTrans(known, ss, Below(body));
    }
    FilterKeeps(ss, KnownTo(outers));
    FilterKeeps(outers, WrittenIn(ss));
    forall s | s in known ensures s in StmtsOf(named) {
      KnownIsNamed(s, ss, outers, undoFns, body);
    }
    forall s | s in StmtsOf(named) ensures s in known {
      StmtsMembers(named, s);
      var o :| o in named && o.stmt == s;
      var t :| t in ss && t.source == s.source;
      assert HasSource(outers, t.source);
      FilterMembers(ss, KnownTo(outers), t);
      KnownIsNamed(t, ss, outers, undoFns, body);
      StmtsMembers(named, t);
      var o' :| o' in named && o'.stmt == t;
      var i :| 0 <= i < |outers| && outers[i] == o;
      var j :| 0 <= j < |outers| && outers[j] == o';
      assert i == j;
    }
    WithinSame(StmtsOf(named), known, Below(body));
  }

  lemma KnownIsNamed(s: Stmt, ss: seq<Stmt>, outers: seq<Outer>, undoFns: seq<string>, body: Stmt)
    requires OutersOf(outers, undoFns, body) && AllWrittenFirst(ss, outers, undoFns, body)
    requires s in ss && HasSource(outers, s.source)
    ensures s in StmtsOf(Filter(outers, WrittenIn(ss)))
  {
    hide IsOuterUndo, Merge, AsOuters;
    var p := IsOuterUndo(undoFns, body);
    assert WrittenFirst(Below(body), p, s);
    var all := Below(body);
    var i :| 0 <= i < |all| && all[i] == s && forall j :: 0 <= j < i && p(all[j]) ==> all[j].source != s.source;
    FirstLeads(all, p, s, i);
    StmtsOfAsOuters(Filter(all, p), undoFns);
    LeadersAreHeads(AsOuters(Filter(all, p), undoFns), s);
    StmtsMembers(outers, s);
    var o :| o in outers && o.stmt == s;
    FilterMembers(outers, WrittenIn(ss), o);
    StmtsMembers(Filter(outers, WrittenIn(ss)), s);
  }

  lemma {:induction false} NumberingKeepsStmts(outers: seq<Outer>, k: nat)
    ensures StmtsOf(NumberOuters(outers, k)) == StmtsOf(outers) && |NumberOuters(outers, k)| == |outers|
    ensures forall i :: 0 <= i < |outers| ==> NumberOuters(outers, k)[i].duplicates == outers[i].duplicates
    ensures forall i :: 0 <= i < |outers| ==> NumberOuters(outers, k)[i].indexes == outers[i].indexes
  {
    hide SlotId;
    if outers != [] {
      NumberingKeepsStmts(outers[1..], k + 1);
      var o, rest := outers[0].(id := SlotId(k)), NumberOuters(outers[1..], k + 1);
      assert ([o] + rest)[1..] == rest;
    }
  }

  // ----- at most one -----

  lemma DistinctStmts(outers: seq<Outer>)
    requires DistinctSources(outers)
    ensures forall i, j :: 0 <= i < j < |SourcesOf(StmtsOf(outers))| ==>
              SourcesOf(StmtsOf(outers))[i] != SourcesOf(StmtsOf(outers))[j]
  {
    SourcesAt(StmtsOf(outers));
    StmtsAt(outers);
  }

  lemma {:induction false} FilterDistinctSources(outers: seq<Outer>, p: Outer -> bool)
    requires DistinctSources(outers)
    ensures DistinctSources(Filter(outers, p))
  {
    if outers != [] {
      var rest := outers[1..];
      FilterDistinctSources(rest, p);
      FilterKeeps(rest, p);
      if p(outers[0]) {
        var kept := Filter(rest, p);
        forall j | 0 <= j < |kept| ensures kept[j].stmt.source != outers[0].stmt.source {
          assert kept[j] in rest;
        }
      }
    }
  }

  /** Where the outers that a list names come in the order of the list, the list has them in the opposite order exactly
      when there is at most one. */
  lemma AtMostOneKnown(ss: seq<Stmt>, outers: seq<Outer>)
    requires DistinctSources(outers) && StmtsOf(Filter(outers, WrittenIn(ss))) == Filter(ss, KnownTo(outers))
    ensures KnownReversed(ss, outers) <==> |Filter(ss, KnownTo(outers))| <= 1
  {
    hide HasSource, SourceIn;
    var named := Filter(outers, WrittenIn(ss));
    FilterDistinctSources(outers, WrittenIn(ss));
    DistinctStmts(named);
    var sources := SourcesOf(StmtsOf(named));
    SourcesAt(StmtsOf(named));
    ReversedAt(sources);
    if |sources| > 1 {
      assert Reversed(sources)[0] == sources[|sources| - 1] != sources[0];
    } else {
      assert Reversed(sources) == sources;
    }
  }
}
