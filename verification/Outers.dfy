/** Undo statements in the body itself, the statements they undo, and the merging of textual duplicates. */
module Outers {
  import opened Basics
  import opened Sequences
  import opened Tree
  import opened Blocks
  import opened Slots

  // ----- collecting -----

  predicate IsRelease(fn: string) {
    fn == "mutex_unlock" || fn == "spin_unlock" || fn == "spin_unlock_irqrestore"
  }

  /** The tests on parameters that a few driver functions need to count as undo functions. */
  predicate IsUndoCall(fn: string, params: seq<string>) {
    if fn == "pinctrl_select_state" then |params| == 3 && Contains(params[2], "suspend")
    else if fn == "msm_camera_config_vreg" then |params| == 8 && params[7] == "0"
    else if fn == "msm_camera_enable_vreg" then |params| == 8 && params[7] == "0"
    else if fn == "regulator_set_voltage" then |params| == 4 && params[2] == "0"
    else fn != "platform_set_drvdata"
  }

  function IsOuterUndo(undoFns: seq<string>, body: Stmt): Stmt -> bool {
    (s: Stmt) =>
      && s.kind.Call? && !InMacro(s, body)
      && (IsRelease(s.kind.fn) || (s.kind.fn in undoFns && IsUndoCall(s.kind.fn, s.kind.params)))
  }

  function IndexesOf(names: seq<string>, name: string, from_: nat): seq<nat>
    decreases |names| - from_
  {
    if from_ >= |names| then []
    else (if names[from_] == name then [from_] else []) + IndexesOf(names, name, from_ + 1)
  }

  lemma {:induction false} IndexesAre(names: seq<string>, name: string, from_: nat, i: nat)
    ensures i in IndexesOf(names, name, from_) <==> from_ <= i < |names| && names[i] == name
    decreases |names| - from_
  {
    if from_ < |names| {
      IndexesAre(names, name, from_ + 1, i);
    }
  }

  function AsOuter(s: Stmt, undoFns: seq<string>): Outer {
    Outer(s, [], 0, [],
          if s.kind.Call? && !IsRelease(s.kind.fn) then IndexesOf(undoFns, s.kind.fn, 0) else [])
  }

  function AsOuters(ss: seq<Stmt>, undoFns: seq<string>): seq<Outer> {
    if ss == [] then [] else [AsOuter(ss[0], undoFns)] + AsOuters(ss[1..], undoFns)
  }

  /** The outer undo statements of a forest inside the body, in traversal order. */
  function OutersIn(forest: seq<Stmt>, undoFns: seq<string>, body: Stmt): seq<Outer> {
    AsOuters(Filter(Flatten(forest), IsOuterUndo(undoFns, body)), undoFns)
  }

  lemma {:induction false} AsOutersAppend(a: seq<Stmt>, b: seq<Stmt>, undoFns: seq<string>)
    ensures AsOuters(a + b, undoFns) == AsOuters(a, undoFns) + AsOuters(b, undoFns)
  {
    if a == [] {
      assert a + b == b;
    } else {
      assert (a + b)[1..] == a[1..] + b;
      AsOutersAppend(a[1..], b, undoFns);
    }
  }

  /** A statement, what is inside it, and what follows. */
  lemma OutersInSteps(forest: seq<Stmt>, undoFns: seq<string>, body: Stmt)
    requires forest != []
    ensures OutersIn(forest, undoFns, body) ==
            (if IsOuterUndo(undoFns, body)(forest[0]) then [AsOuter(forest[0], undoFns)] else [])
            + OutersIn(forest[0].kids, undoFns, body) + OutersIn(forest[1..], undoFns, body)
  {
    var p := IsOuterUndo(undoFns, body);
    var inside, after := Flatten(forest[0].kids), Flatten(forest[1..]);
    FilterAppend([forest[0]] + inside, after, p);
    FilterAppend([forest[0]], inside, p);
    assert [forest[0]][1..] == [];
    var a := Filter([forest[0]], p);
    AsOutersAppend(a + Filter(inside, p), Filter(after, p), undoFns);
    AsOutersAppend(a, Filter(inside, p), undoFns);
    assert a == if p(forest[0]) then [forest[0]] else [];
    assert [forest[0]][1..] == [] && AsOuters([forest[0]], undoFns) == [AsOuter(forest[0], undoFns)];
  }

  // ----- pairs -----

  function Arg0(s: Stmt): string
    requires s.kind.Call?
  {
    if s.kind.args == [] then "" else s.kind.args[0]
  }

  predicate Locks(s: Stmt, lock: string, lock': string) {
    s.kind.Call? && (s.kind.fn == lock || s.kind.fn == lock')
  }

  /** t is the statement that the undo statement s undoes. */
  predicate IsPair(s: Stmt, t: Stmt) {
    s.kind.Call? &&
    if s.kind.fn == "kfree" || s.kind.fn == "kzfree" then
      && t.kind.Assign? && (Contains(t.kind.rhs, "kzalloc") || Contains(t.kind.rhs, "kmalloc"))
      && t.kind.lhs == Arg0(s)
    else if s.kind.fn == "mutex_unlock" then Locks(t, "mutex_lock", "mutex_lock") && Arg0(t) == Arg0(s)
    else if s.kind.fn == "spin_unlock" then Locks(t, "spin_lock", "_raw_spin_lock") && Arg0(t) == Arg0(s)
    else
      && s.kind.fn == "spin_unlock_irqrestore" && Locks(t, "spin_lock_irqsave", "_raw_spin_lock_irqsave")
      && (Arg0(t) == Arg0(s) || Contains(Arg0(s), Arg0(t)) || Contains(Arg0(t), Arg0(s)))
  }

  predicate InWindow(s: Stmt, startLine: nat, endLine: nat) {
    startLine < s.startLine < endLine
  }

  predicate IsReleaseCall(s: Stmt) {
    s.kind.Call? && IsRelease(s.kind.fn)
  }

  /** The statements that s undoes, in traversal order; what is inside one of them is not looked at. */
  function Matches(forest: seq<Stmt>, s: Stmt): seq<Stmt> {
    if forest == [] then []
    else (if IsPair(s, forest[0]) then [forest[0]] else Matches(forest[0].kids, s)) + Matches(forest[1..], s)
  }

  /** s undoes t, and t is not inside another statement of the forest that s undoes. */
  predicate IsTopmost(forest: seq<Stmt>, s: Stmt, t: Stmt) {
    IsPair(s, t) && forall x :: x in Flatten(forest) && IsPair(s, x) ==> t !in Below(x)
  }

  function Topmost(forest: seq<Stmt>, s: Stmt): Stmt -> bool {
    (t: Stmt) => IsTopmost(forest, s, t)
  }

  /** The search finds exactly the topmost statements that s undoes, in traversal order. */
  lemma {:induction false} MatchesAreTopmost(forest: seq<Stmt>, s: Stmt)
    requires Unique(forest)
    ensures Matches(forest, s) == Filter(Flatten(forest), Topmost(forest, s))
  {
    hide IsPair, Topmost, Filter;
    if forest == [] {
      NothingFiltered(Topmost(forest, s));
    } else {
      MatchesAreTopmost(forest[0].kids, s);
      MatchesAreTopmost(forest[1..], s);
      TopmostStep(forest, s);
    }
  }

  lemma NothingFiltered(p: Stmt -> bool)
    ensures Filter([], p) == []
  {
  }

  lemma TopmostStep(forest: seq<Stmt>, s: Stmt)
    requires Unique(forest) && forest != []
    ensures Filter(Flatten(forest), Topmost(forest, s)) ==
            (if IsPair(s, forest[0]) then [forest[0]]
             else Filter(Flatten(forest[0].kids), Topmost(forest[0].kids, s)))
            + Filter(Flatten(forest[1..]), Topmost(forest[1..], s))
  {
    hide IsPair, IsTopmost, Unique, Filter;
    var t, rest := forest[0], forest[1..];
    var inside, after := Flatten(t.kids), Flatten(rest);
    FilterAppend([t] + inside, after, Topmost(forest, s));
    FilterCons(t, inside, Topmost(forest, s));
    TopmostApart(forest, s);
    SameFilters(after, Topmost(forest, s), Topmost(rest, s));
    if IsPair(s, t) {
      FilterNone(inside, Topmost(forest, s));
    } else {
      SameFilters(inside, Topmost(forest, s), Topmost(t.kids, s));
    }
  }

  /** The first tree of a forest and the others do not disturb each other. */
  lemma TopmostApart(forest: seq<Stmt>, s: Stmt)
    requires Unique(forest) && forest != []
    ensures IsTopmost(forest, s, forest[0]) <==> IsPair(s, forest[0])
    ensures forall x :: x in Flatten(forest[1..]) ==> (IsTopmost(forest, s, x) <==> IsTopmost(forest[1..], s, x))
    ensures forall x :: x in Flatten(forest[0].kids) ==>
              (IsTopmost(forest, s, x) <==> !IsPair(s, forest[0]) && IsTopmost(forest[0].kids, s, x))
  {
    hide IsPair, Unique, Flatten;
    var t, rest := forest[0], forest[1..];
    var inside, after := Flatten(t.kids), Flatten(rest);
    forall x ensures x in Flatten(forest) <==> x == t || x in inside || x in after {
      FlattenMembers(forest, x);
    }
    forall x, y | x in Flatten(forest) && y in Below(x)
      ensures y != t && (x in after <==> y in after) && (x in inside ==> y in inside) && (x == t ==> y in inside)
    {
      ApartInside(forest, x, y);
    }
    forall x | x in inside ensures x !in after {
      ApartTrees(forest, x);
    }
    forall x | x in Flatten(forest) ensures t !in Below(x) {
      if t in Below(x) {
        ApartInside(forest, x, t);
      }
    }
    FlattenMembers(forest, t);
  }

  lemma FlattenMembers(forest: seq<Stmt>, x: Stmt)
    requires forest != []
    ensures x in Flatten(forest) <==> x == forest[0] || x in Flatten(forest[0].kids) || x in Flatten(forest[1..])
  {
  }

  lemma ApartTrees(forest: seq<Stmt>, x: Stmt)
    requires Unique(forest) && forest != [] && x in Flatten(forest[0].kids)
    ensures x !in Flatten(forest[1..]) && x in Flatten(forest)
  {
    FlattenIds(forest[0].kids, x);
    if x in Flatten(forest[1..]) {
      FlattenIds(forest[1..], x);
    }
  }

  lemma ApartInside(forest: seq<Stmt>, x: Stmt, y: Stmt)
    requires Unique(forest) && forest != [] && x in Flatten(forest) && y in Below(x)
    ensures y != forest[0] && (x in Flatten(forest[1..]) <==> y in Flatten(forest[1..]))
    ensures x in Flatten(forest[0].kids) ==> y in Flatten(forest[0].kids)
    ensures x == forest[0] ==> y in Flatten(forest[0].kids)
  {
    var t, rest := forest[0], forest[1..];
    if x in Flatten(rest) {
      KidsInside(rest, x, y);
      FlattenIds(rest, y);
      FlattenIds(rest, x);
      if x in Flatten(t.kids) {
        FlattenIds(t.kids, x);
      }
    } else {
      if x in Flatten(t.kids) {
        KidsInside(t.kids, x, y);
      }
      FlattenIds(t.kids, y);
      if y in Flatten(rest) {
        FlattenIds(rest, y);
      }
    }
  }

  /** Only a call of one of five functions has a pair. */
  predicate MayHavePair(s: Stmt) {
    s.kind.Call? && (s.kind.fn == "kfree" || s.kind.fn == "kzfree" || IsRelease(s.kind.fn))
  }

  lemma PairsAreFew(s: Stmt, t: Stmt)
    requires IsPair(s, t)
    ensures MayHavePair(s)
  {
  }

  // ----- merging duplicates -----

  function SameSource(source: string): Outer -> bool {
    (o: Outer) => o.stmt.source == source
  }

  function OtherSource(source: string): Outer -> bool {
    (o: Outer) => o.stmt.source != source
  }

  function StmtsOf(outers: seq<Outer>): seq<Stmt> {
    if outers == [] then [] else [outers[0].stmt] + StmtsOf(outers[1..])
  }

  lemma {:induction false} StmtsAt(outers: seq<Outer>)
    ensures |StmtsOf(outers)| == |outers| && forall i :: 0 <= i < |outers| ==> StmtsOf(outers)[i] == outers[i].stmt
  {
    if outers != [] {
      StmtsAt(outers[1..]);
    }
  }

  /** The first outer of each text, with the later ones of the same text as its duplicates. */
  function Merge(outers: seq<Outer>): seq<Outer>
    decreases |outers|
  {
    if outers == [] then []
    else
      var first, rest := outers[0], outers[1..];
      FilterLength(rest, OtherSource(first.stmt.source));
      [first.(duplicates := first.duplicates + StmtsOf(Filter(rest, SameSource(first.stmt.source))))]
      + Merge(Filter(rest, OtherSource(first.stmt.source)))
  }

  function SourcesOf(ss: seq<Stmt>): seq<string> {
    if ss == [] then [] else [ss[0].source] + SourcesOf(ss[1..])
  }

  predicate SourceIn(source: string, ss: seq<Stmt>) {
    exists s :: s in ss && s.source == source
  }

  /** The outer is written like one of the statements. */
  function WrittenIn(ss: seq<Stmt>): Outer -> bool {
    (o: Outer) => SourceIn(o.stmt.source, ss)
  }

  predicate HasSource(outers: seq<Outer>, source: string) {
    exists o :: o in outers && o.stmt.source == source
  }

  /** The statement is written like one of the outers. */
  function KnownTo(outers: seq<Outer>): Stmt -> bool {
    (s: Stmt) => HasSource(outers, s.source)
  }

  function UnknownTo(outers: seq<Outer>): Stmt -> bool {
    (s: Stmt) => !HasSource(outers, s.source)
  }

  predicate DistinctSources(outers: seq<Outer>) {
    forall i, j :: 0 <= i < j < |outers| ==> outers[i].stmt.source != outers[j].stmt.source
  }

  /** Merging keeps exactly the texts there were. */
  lemma {:induction false} MergeKeepsSources(outers: seq<Outer>, source: string)
    ensures HasSource(Merge(outers), source) <==> HasSource(outers, source)
    decreases |outers|
  {
    if outers != [] {
      var first, rest := outers[0], outers[1..];
      var others := Filter(rest, OtherSource(first.stmt.source));
      FilterLength(rest, OtherSource(first.stmt.source));
      MergeKeepsSources(others, source);
      var merged := Merge(outers);
      assert merged[1..] == Merge(others) && merged[0].stmt == first.stmt;
      assert merged == [merged[0]] + merged[1..];
      assert outers == [first] + rest;
      forall o ensures o in others <==> o in rest && o.stmt.source != first.stmt.source {
        FilterMembers(rest, OtherSource(first.stmt.source), o);
      }
      assert HasSource(others, source) <==> HasSource(rest, source) && source != first.stmt.source;
    }
  }

  /** After merging no two outers have the same text. */
  lemma {:induction false} MergeMakesDistinct(outers: seq<Outer>)
    ensures DistinctSources(Merge(outers))
    decreases |outers|
  {
    if outers != [] {
      var first, rest := outers[0], outers[1..];
      var others := Filter(rest, OtherSource(first.stmt.source));
      FilterLength(rest, OtherSource(first.stmt.source));
      MergeMakesDistinct(others);
      MergeKeepsSources(others, first.stmt.source);
      forall o ensures o in others ==> o.stmt.source != first.stmt.source {
        FilterMembers(rest, OtherSource(first.stmt.source), o);
      }
      assert !HasSource(Merge(others), first.stmt.source);
      assert Merge(outers)[1..] == Merge(others);
    }
  }

  /** The statements an outer stands for. */
  function Everything(outers: seq<Outer>): multiset<Stmt> {
    if outers == [] then multiset{}
    else multiset{outers[0].stmt} + multiset(outers[0].duplicates) + Everything(outers[1..])
  }

  lemma EverythingCons(o: Outer, rest: seq<Outer>)
    ensures Everything([o] + rest) == multiset{o.stmt} + multiset(o.duplicates) + Everything(rest)
  {
    assert ([o] + rest)[1..] == rest;
  }

  lemma StmtsCons(o: Outer, rest: seq<Outer>)
    ensures multiset(StmtsOf([o] + rest)) == multiset{o.stmt} + multiset(StmtsOf(rest))
  {
    assert ([o] + rest)[1..] == rest;
  }

  predicate NoDuplicates(outers: seq<Outer>) {
    forall o :: o in outers ==> o.duplicates == []
  }

  lemma {:induction false} FilterParts(outers: seq<Outer>, source: string)
    requires NoDuplicates(outers)
    ensures Everything(outers) ==
            multiset(StmtsOf(Filter(outers, SameSource(source)))) + Everything(Filter(outers, OtherSource(source)))
  {
    if outers != [] {
      hide Everything, StmtsOf, Filter;
      var first, rest := outers[0], outers[1..];
      assert outers == [first] + rest;
      FilterParts(rest, source);
      var same, other := Filter(rest, SameSource(source)), Filter(rest, OtherSource(source));
      FilterCons(first, rest, SameSource(source));
      FilterCons(first, rest, OtherSource(source));
      EverythingCons(first, rest);
      assert first.duplicates == [];
      if first.stmt.source == source {
        StmtsCons(first, same);
      } else {
        EverythingCons(first, other);
        Regroup(multiset{first.stmt}, multiset(StmtsOf(same)), Everything(other));
      }
    }
  }

  lemma Regroup<T>(a: multiset<T>, b: multiset<T>, c: multiset<T>)
    ensures a + (b + c) == b + (a + c)
  {
  }

  /** The heads together with their duplicates are exactly the outers first collected. */
  lemma {:induction false} MergeLosesNothing(outers: seq<Outer>)
    requires NoDuplicates(outers)
    ensures Everything(Merge(outers)) == Everything(outers)
    decreases |outers|
  {
    if outers != [] {
      hide Everything, StmtsOf;
      var first, rest := outers[0], outers[1..];
      assert outers == [first] + rest;
      var source := first.stmt.source;
      var same, others := Filter(rest, SameSource(source)), Filter(rest, OtherSource(source));
      FilterLength(rest, OtherSource(source));
      forall o ensures o in others ==> o.duplicates == [] {
        FilterMembers(rest, OtherSource(source), o);
      }
      MergeLosesNothing(others);
      FilterParts(rest, source);
      assert first.duplicates == [];
      var head := first.(duplicates := StmtsOf(same));
      assert first.duplicates + StmtsOf(same) == StmtsOf(same);
      assert Merge(outers) == [head] + Merge(others);
      EverythingCons(head, Merge(others));
      EverythingCons(first, rest);
    }
  }

  // ----- no undo lost, none doubled -----

  /** Marks the new statements that print in the file like an outer. */
  function MarkFirsts(firsts: seq<NewStmt>, sources: seq<Outer>): seq<NewStmt> {
    if firsts == [] then []
    else
      [firsts[0].(isOuter := firsts[0].isOuter || HasSource(sources, firsts[0].stmt.source))]
      + MarkFirsts(firsts[1..], sources)
  }

  function MarkBlocks(ehcs: seq<EHC>, sources: seq<Outer>): seq<EHC> {
    if ehcs == [] then []
    else [ehcs[0].(firsts := MarkFirsts(ehcs[0].firsts, sources))] + MarkBlocks(ehcs[1..], sources)
  }

  /** What find_pairs leaves behind: every new statement lies in the body outside macros, and one that is marked as
      outer is a call that may have a pair. */
  predicate PairsFound(firsts: seq<NewStmt>, body: Stmt) {
    forall f :: f in firsts ==> f.stmt in Below(body) && !InMacro(f.stmt, body) && (f.isOuter ==> MayHavePair(f.stmt))
  }

  /** A new statement is marked as outer exactly when an outer has its text. */
  ghost predicate Settled(ehcs: seq<EHC>, outers: seq<Outer>) {
    forall b, i :: 0 <= b < |ehcs| && 0 <= i < |ehcs[b].firsts| ==>
      (ehcs[b].firsts[i].isOuter <==> HasSource(outers, ehcs[b].firsts[i].stmt.source))
  }

  lemma {:induction false} AsOutersMembers(ss: seq<Stmt>, undoFns: seq<string>, source: string)
    ensures HasSource(AsOuters(ss, undoFns), source) <==> exists s :: s in ss && s.source == source
    ensures NoDuplicates(AsOuters(ss, undoFns))
  {
    if ss != [] {
      AsOutersMembers(ss[1..], undoFns, source);
      var outers := AsOuters(ss, undoFns);
      assert outers[1..] == AsOuters(ss[1..], undoFns) && outers == [outers[0]] + outers[1..];
      assert ss == [ss[0]] + ss[1..];
    }
  }

  /** A call that may have a pair is itself collected as an outer, if the database knows kfree and kzfree. */
  lemma ReleasesAreOuters(s: Stmt, undoFns: seq<string>, body: Stmt)
    requires "kfree" in undoFns && "kzfree" in undoFns
    requires s in Below(body) && !InMacro(s, body) && MayHavePair(s)
    ensures HasSource(OutersIn(body.kids, undoFns, body), s.source)
  {
    var p := IsOuterUndo(undoFns, body);
    FilterMembers(Below(body), p, s);
    AsOutersMembers(Filter(Below(body), p), undoFns, s.source);
  }

  lemma {:induction false} MarkedAt(firsts: seq<NewStmt>, sources: seq<Outer>)
    ensures |MarkFirsts(firsts, sources)| == |firsts|
    ensures forall i :: 0 <= i < |firsts| ==>
              MarkFirsts(firsts, sources)[i] ==
              firsts[i].(isOuter := firsts[i].isOuter || HasSource(sources, firsts[i].stmt.source))
  {
    if firsts != [] {
      MarkedAt(firsts[1..], sources);
    }
  }

  /** After the merge every new statement either keeps a slot of its own or has the text of exactly one outer, never
      both: it is marked as outer exactly when one outer has its text, and texts of outers are pairwise distinct. */
  lemma NoUndoLostOrDoubled(firsts: seq<NewStmt>, undoFns: seq<string>, body: Stmt)
    requires "kfree" in undoFns && "kzfree" in undoFns && PairsFound(firsts, body)
    ensures var outers := Merge(OutersIn(body.kids, undoFns, body));
            && DistinctSources(outers)
            && Everything(outers) == Everything(OutersIn(body.kids, undoFns, body))
            && |MarkFirsts(firsts, outers)| == |firsts|
            && forall i :: 0 <= i < |firsts| ==>
                 var f := MarkFirsts(firsts, outers)[i];
                 f.stmt == firsts[i].stmt && (f.isOuter <==> HasSource(outers, f.stmt.source))
  {
    var collected := OutersIn(body.kids, undoFns, body);
    var outers := Merge(collected);
    MergeMakesDistinct(collected);
    AsOutersMembers(Filter(Below(body), IsOuterUndo(undoFns, body)), undoFns, "");
    MergeLosesNothing(collected);
    MarkedAt(firsts, outers);
    forall i | 0 <= i < |firsts| ensures firsts[i].isOuter ==> HasSource(outers, firsts[i].stmt.source) {
      if firsts[i].isOuter {
        ReleasesAreOuters(firsts[i].stmt, undoFns, body);
        MergeKeepsSources(collected, firsts[i].stmt.source);
      }
    }
  }
}
