/** Which calls of a function body become outers. */
module Collected {
  import opened Basics
  import opened Sequences
  import opened Tree
  import opened Blocks
  import opened Slots
  import opened Outers
  import opened UndoOrder

  /** The statement and one it is a child of both begin inside a macro expansion. */
  ghost predicate InsideMacro(s: Stmt, body: Stmt) {
    exists p :: p in Flatten([body]) && s in p.kids && s.macro && p.macro
  }

  lemma InsideMacroIs(s: Stmt, body: Stmt)
    requires Unique([body]) && s in Below(body)
    ensures InsideMacro(s, body) <==> InMacro(s, body)
  {
    hide Unique;
    if InsideMacro(s, body) {
      var p :| p in Flatten([body]) && s in p.kids && s.macro && p.macro;
      ParentIsTheParent([body], p, s);
    } else {
      HasParent(body, s);
      var p :| p in Flatten([body]) && s in p.kids;
      ParentIsTheParent([body], p, s);
    }
  }

  /** Every statement inside the body is a child of one of its statements. */
  lemma {:induction false} HasParent(body: Stmt, s: Stmt)
    requires s in Below(body)
    ensures exists p :: p in Flatten([body]) && s in p.kids
    decreases body
  {
    OneTree(body);
    if s in body.kids {
      assert body in Flatten([body]);
    } else {
      var kid := KidAround(body.kids, s);
      HasParent(kid, s);
      var p :| p in Flatten([kid]) && s in p.kids;
      OneTree(kid);
      var i :| 0 <= i < |body.kids| && body.kids[i] == kid;
      RootInside(body.kids, i);
      if p != kid {
        KidsInside(body.kids, kid, p);
      }
    }
  }

  lemma OneTree(s: Stmt)
    ensures Flatten([s]) == [s] + Flatten(s.kids)
  {
    assert [s][1..] == [] && [s] + Flatten(s.kids) + [] == [s] + Flatten(s.kids);
  }

  lemma {:induction false} KidAround(forest: seq<Stmt>, s: Stmt) returns (kid: Stmt)
    requires s in Flatten(forest) && s !in forest
    ensures kid in forest && s in Below(kid)
  {
    if s in Flatten(forest[0].kids) {
      kid := forest[0];
    } else {
      kid := KidAround(forest[1..], s);
    }
  }

  /** Every outer and every duplicate of one is such a statement. */
  lemma {:induction false} EverythingIs(outers: seq<Outer>, s: Stmt)
    ensures s in Everything(outers) <==> exists o :: o in outers && (s == o.stmt || s in o.duplicates)
  {
    if outers != [] {
      EverythingIs(outers[1..], s);
      assert outers == [outers[0]] + outers[1..];
    }
  }

  lemma {:induction false} EverythingCollected(ss: seq<Stmt>, undoFns: seq<string>)
    ensures Everything(AsOuters(ss, undoFns)) == multiset(ss)
  {
    if ss != [] {
      EverythingCollected(ss[1..], undoFns);
      assert AsOuters(ss, undoFns)[1..] == AsOuters(ss[1..], undoFns);
      assert ss == [ss[0]] + ss[1..];
      assert multiset(AsOuter(ss[0], undoFns).duplicates) == multiset{};
    }
  }

  /** After merging, the outers and their duplicates are exactly the statements that the test accepts. */
  lemma CollectedAre(undoFns: seq<string>, body: Stmt)
    ensures var outers := Merge(OutersIn(body.kids, undoFns, body));
            forall s :: s in Everything(outers) <==> s in Below(body) && IsOuterUndo(undoFns, body)(s)
  {
    hide Everything, Merge, IsOuterUndo;
    var p := IsOuterUndo(undoFns, body);
    var ss := Filter(Below(body), p);
    AsOutersMembers(ss, undoFns, "");
    MergeLosesNothing(AsOuters(ss, undoFns));
    EverythingCollected(ss, undoFns);
    forall s ensures s in Everything(Merge(OutersIn(body.kids, undoFns, body))) <==> s in Below(body) && p(s) {
      FilterMembers(Below(body), p, s);
    }
  }

  /** No undo is lost. Every lock release outside macros, and every call outside macros of a function that the database
      knows and that needs no look at its parameters, is an outer or a duplicate of one with its text. */
  lemma EveryUndoIsCollected(s: Stmt, undoFns: seq<string>, body: Stmt)
    requires Unique([body]) && s in Below(body) && s.kind.Call?
    requires !exists p :: p in Flatten([body]) && s in p.kids && s.macro && p.macro
    requires s.kind.fn in ["mutex_unlock", "spin_unlock", "spin_unlock_irqrestore"]
             || (s.kind.fn in undoFns
                 && s.kind.fn !in ["pinctrl_select_state", "msm_camera_config_vreg", "msm_camera_enable_vreg",
                                   "regulator_set_voltage", "platform_set_drvdata"])
    ensures var outers := Merge(OutersIn(body.kids, undoFns, body));
            exists o :: o in outers && o.stmt.source == s.source && (s == o.stmt || s in o.duplicates)
  {
    InsideMacroIs(s, body);
    PlainTest(s, undoFns, body);
    hide Merge, Everything, Unique, Below, IsOuterUndo, AsOuters;
    CollectedAre(undoFns, body);
    AcceptedIsThere(s, undoFns, body);
  }

  lemma PlainTest(s: Stmt, undoFns: seq<string>, body: Stmt)
    requires s.kind.Call? && !InMacro(s, body)
    requires s.kind.fn in ["mutex_unlock", "spin_unlock", "spin_unlock_irqrestore"]
             || (s.kind.fn in undoFns
                 && s.kind.fn !in ["pinctrl_select_state", "msm_camera_config_vreg", "msm_camera_enable_vreg",
                                   "regulator_set_voltage", "platform_set_drvdata"])
    ensures IsOuterUndo(undoFns, body)(s)
  {
    hide InMacro, Contains;
  }

  lemma AcceptedIsThere(s: Stmt, undoFns: seq<string>, body: Stmt)
    requires s in Below(body) && IsOuterUndo(undoFns, body)(s)
    ensures var outers := Merge(OutersIn(body.kids, undoFns, body));
            exists o :: o in outers && o.stmt.source == s.source && (s == o.stmt || s in o.duplicates)
  {
    hide Merge, Everything, IsOuterUndo, AsOuters;
    CollectedAre(undoFns, body);
    EverythingIs(Merge(OutersIn(body.kids, undoFns, body)), s);
    var o :| o in Merge(OutersIn(body.kids, undoFns, body)) && (s == o.stmt || s in o.duplicates);
    AsOutersMembers(Filter(Below(body), IsOuterUndo(undoFns, body)), undoFns, "");
    DuplicatesAreAlike(OutersIn(body.kids, undoFns, body), o);
  }

  /** The duplicates of a merged outer have its text. */
  lemma {:induction false} DuplicatesAreAlike(outers: seq<Outer>, o: Outer)
    requires NoDuplicates(outers) && o in Merge(outers)
    ensures forall s :: s in o.duplicates ==> s.source == o.stmt.source
    decreases |outers|
  {
    var first, rest := outers[0], outers[1..];
    var same, others := Filter(rest, SameSource(first.stmt.source)), Filter(rest, OtherSource(first.stmt.source));
    FilterLength(rest, OtherSource(first.stmt.source));
    FilterKeeps(rest, OtherSource(first.stmt.source));
    FilterKeeps(rest, SameSource(first.stmt.source));
    if o == Merge(outers)[0] {
      forall s | s in o.duplicates ensures s.source == o.stmt.source {
        StmtsMembers(same, s);
      }
    } else {
      assert Merge(outers) == [Merge(outers)[0]] + Merge(others);
      DuplicatesAreAlike(others, o);
    }
  }

  /** Nothing else is collected: an outer or a duplicate is a call in the body, outside macros, of a lock release
      or of a function that the database knows. */
  lemma OnlyUndosAreCollected(o: Outer, s: Stmt, undoFns: seq<string>, body: Stmt)
    requires Unique([body]) && o in Merge(OutersIn(body.kids, undoFns, body)) && (s == o.stmt || s in o.duplicates)
    ensures s in Below(body) && s.kind.Call?
    ensures !exists p :: p in Flatten([body]) && s in p.kids && s.macro && p.macro
    ensures s.kind.fn in ["mutex_unlock", "spin_unlock", "spin_unlock_irqrestore"] || s.kind.fn in undoFns
  {
    hide Merge, Everything, Unique, Below, IsUndoCall;
    CollectedAre(undoFns, body);
    EverythingIs(Merge(OutersIn(body.kids, undoFns, body)), s);
    InsideMacroIs(s, body);
  }

  /** The calls whose parameters are looked at: a call of one of these functions that the database knows is collected
      exactly when its parameters say that it turns something off, and never for platform_set_drvdata. */
  lemma DriverCallsAreCollected(s: Stmt, undoFns: seq<string>, body: Stmt)
    requires Unique([body]) && s in Below(body) && s.kind.Call? && s.kind.fn in undoFns
    requires !exists p :: p in Flatten([body]) && s in p.kids && s.macro && p.macro
    requires s.kind.fn in ["pinctrl_select_state", "msm_camera_config_vreg", "msm_camera_enable_vreg",
                           "regulator_set_voltage", "platform_set_drvdata"]
    ensures var outers, params := Merge(OutersIn(body.kids, undoFns, body)), s.kind.params;
            (exists o :: o in outers && (s == o.stmt || s in o.duplicates)) <==>
            match s.kind.fn
            case "pinctrl_select_state" => |params| == 3 && Contains(params[2], "suspend")
            case "regulator_set_voltage" => |params| == 4 && params[2] == "0"
            case "platform_set_drvdata" => false
            case _ => |params| == 8 && params[7] == "0"
  {
    hide Merge, Everything, Unique, Below, Contains;
    CollectedAre(undoFns, body);
    EverythingIs(Merge(OutersIn(body.kids, undoFns, body)), s);
    InsideMacroIs(s, body);
    DriverTest(s, undoFns, body);
  }

  lemma DriverTest(s: Stmt, undoFns: seq<string>, body: Stmt)
    requires s.kind.Call? && s.kind.fn in undoFns && !InMacro(s, body)
    requires s.kind.fn in ["pinctrl_select_state", "msm_camera_config_vreg", "msm_camera_enable_vreg",
                           "regulator_set_voltage", "platform_set_drvdata"]
    ensures IsOuterUndo(undoFns, body)(s) <==>
            var params := s.kind.params;
            match s.kind.fn
            case "pinctrl_select_state" => |params| == 3 && Contains(params[2], "suspend")
            case "regulator_set_voltage" => |params| == 4 && params[2] == "0"
            case "platform_set_drvdata" => false
            case _ => |params| == 8 && params[7] == "0"
  {
    hide InMacro, Contains;
  }

  /** The outer has the places in the database of its function's name, if it is no lock release. */
  ghost predicate HasItsIndexes(o: Outer, undoFns: seq<string>) {
    forall x: nat :: x in o.indexes <==>
                     o.stmt.kind.Call? && x < |undoFns| && undoFns[x] == o.stmt.kind.fn
                     && o.stmt.kind.fn !in ["mutex_unlock", "spin_unlock", "spin_unlock_irqrestore"]
  }

  lemma IndexesFound(s: Stmt, undoFns: seq<string>)
    ensures HasItsIndexes(AsOuter(s, undoFns), undoFns)
  {
    if s.kind.Call? {
      forall x: nat ensures x in IndexesOf(undoFns, s.kind.fn, 0) <==> x < |undoFns| && undoFns[x] == s.kind.fn {
        IndexesAre(undoFns, s.kind.fn, 0, x);
      }
    }
  }

  lemma {:induction false} IndexesCollected(ss: seq<Stmt>, undoFns: seq<string>)
    ensures forall o :: o in AsOuters(ss, undoFns) ==> HasItsIndexes(o, undoFns)
  {
    hide HasItsIndexes;
    if ss != [] {
      IndexesFound(ss[0], undoFns);
      IndexesCollected(ss[1..], undoFns);
      assert AsOuters(ss, undoFns) == [AsOuter(ss[0], undoFns)] + AsOuters(ss[1..], undoFns);
    }
  }

  lemma SameIndexes(o: Outer, o': Outer, undoFns: seq<string>)
    requires HasItsIndexes(o, undoFns) && o'.stmt == o.stmt && o'.indexes == o.indexes
    ensures HasItsIndexes(o', undoFns)
  {
  }

  lemma {:induction false} IndexesMerged(outers: seq<Outer>, undoFns: seq<string>)
    requires forall o :: o in outers ==> HasItsIndexes(o, undoFns)
    ensures forall o :: o in Merge(outers) ==> HasItsIndexes(o, undoFns)
    decreases |outers|
  {
    hide HasItsIndexes;
    if outers != [] {
      var first, rest := outers[0], outers[1..];
      var others := Filter(rest, OtherSource(first.stmt.source));
      FilterLength(rest, OtherSource(first.stmt.source));
      FilterKeeps(rest, OtherSource(first.stmt.source));
      assert outers == [first] + rest;
      IndexesMerged(others, undoFns);
      assert Merge(outers) == [Merge(outers)[0]] + Merge(others);
      SameIndexes(first, Merge(outers)[0], undoFns);
    }
  }

  /** An outer knows the places of its function in the database, all of them and no others; a lock release none. */
  lemma OutersKnowTheirIndexes(outers: seq<Outer>, i: nat, undoFns: seq<string>, body: Stmt)
    requires OutersOf(outers, undoFns, body) && i < |outers|
    ensures HasItsIndexes(outers[i], undoFns)
  {
    var merged := Merge(OutersIn(body.kids, undoFns, body));
    assert HasItsIndexes(merged[i], undoFns) by {
      hide Merge, HasItsIndexes, AsOuters;
      IndexesCollected(Filter(Below(body), IsOuterUndo(undoFns, body)), undoFns);
      IndexesMerged(OutersIn(body.kids, undoFns, body), undoFns);
    }
    hide Merge, OutersIn, HasItsIndexes;
    StmtsAt(merged);
    StmtsAt(outers);
    assert outers[i].stmt == StmtsOf(outers)[i] == merged[i].stmt;
    SameIndexes(merged[i], outers[i], undoFns);
  }

  /** The new statements of a block: none of a denied block, and otherwise those outside macros that print unlike every
      statement of every earlier block. */
  lemma NewAre(ehcs: seq<EHC>, b: nat, body: Stmt, s: Stmt)
    requires Unique([body]) && b < |ehcs| && forall t :: t in ehcs[b].stmts ==> t in Below(body)
    ensures (exists f :: f in NewIn(ehcs, b, body) && f.stmt == s) <==>
            && !ehcs[b].kind.Denied? && s in ehcs[b].stmts
            && (forall j, t :: 0 <= j < b && t in ehcs[j].stmts ==> t.text != s.text)
            && !exists p :: p in Flatten([body]) && s in p.kids && s.macro && p.macro
  {
    hide Unique, Below, Flatten, InMacro;
    var p := IsNew(ehcs, b, body);
    var ss := Filter(ehcs[b].stmts, p);
    AsNewAt(ss, ehcs[b].kind);
    FilterMembers(ehcs[b].stmts, p, s);
    if s in ehcs[b].stmts {
      InsideMacroIs(s, body);
      Unseen(ehcs, b, s.text);
    }
    if s in ss && !ehcs[b].kind.Denied? {
      var i :| 0 <= i < |ss| && ss[i] == s;
      assert NewIn(ehcs, b, body)[i].stmt == s && NewIn(ehcs, b, body)[i] in NewIn(ehcs, b, body);
    }
    if f :| f in NewIn(ehcs, b, body) && f.stmt == s {
      var i :| 0 <= i < |NewIn(ehcs, b, body)| && NewIn(ehcs, b, body)[i] == f;
      assert ss[i] == s;
    }
  }

  lemma Unseen(ehcs: seq<EHC>, b: nat, text: string)
    requires b <= |ehcs|
    ensures !SeenBefore(ehcs, b, text) <==> forall j, t :: 0 <= j < b && t in ehcs[j].stmts ==> t.text != text
  {
    forall j, t | 0 <= j < b && t in ehcs[j].stmts && t.text == text ensures SeenBefore(ehcs, b, text) {
      assert TextIn(text, ehcs[j].stmts);
    }
  }
}
