/** The bowknot generator: one object per function, whose passes fill its lists step by step and then insert text. */
module Pass2 {
  import opened Basics
  import opened MaskWord
  import opened Tree
  import opened Blocks
  import opened Erasing
  import opened Slots
  import opened Outers
  import opened Jumps
  import opened Runtime
  import opened Unwinding
  import opened Stamps
  import opened Passes
  import opened Stamped
  import opened UndoOrder
  import opened ErrorPaths

  class Function {
    const body: Stmt
    var ehcs: seq<EHC>
    var outers: seq<Outer>

    constructor (body: Stmt)
      ensures this.body == body && ehcs == [] && outers == []
    {
      this.body := body;
      ehcs, outers := [], [];
    }

    /** Builds one block per head, resolving gotos to what stands behind their labels. */
    method FindEhcStmts(heads: seq<Head>)
      requires Unique([body]) && AllResolvable(heads, body) && ehcs == []
      modifies this`ehcs
      ensures ehcs == BlocksOf(heads, body)
      ensures forall h :: 0 <= h < |heads| ==>
                && ehcs[h].kind == heads[h].kind && ehcs[h].head == heads[h].stmt && ehcs[h].firsts == []
                && if heads[h].kind.GotoEhc? || heads[h].kind.GotoMaybe? then
                     Filter(heads[h].stmt.kids, NotGoto()) <= ehcs[h].stmts
                   else if heads[h].stmt.kind.Compound? then ehcs[h].stmts == heads[h].stmt.kids
                   else ehcs[h].stmts == [heads[h].stmt]
    {
      for h := 0 to |heads|
        invariant ehcs == BlocksOf(heads, body)[..h]
      {
        var head := heads[h];
        assert Resolvable(head, body);
        var stmts;
        if IsGotoHead(head) {
          var own, target := OwnStatements(head.stmt.kids);
          var parent := FindParentRecursive(target.value, body);
          ParentsKids(body, target.value);
          var rest := CollectFromLabel(parent.value.kids, target.value);
          stmts := own + rest;
        } else if head.stmt.kind.Compound? {
          stmts := head.stmt.kids;
        } else {
          stmts := [head.stmt];
        }
        ehcs := ehcs + [EHC(head.kind, head.stmt, stmts, [])];
      }
      assert BlocksOf(heads, body)[..|heads|] == BlocksOf(heads, body);
    }

    /** The loop that the blacklist, loop and critical-section passes share. */
    method EraseStatements(p: Stmt -> bool)
      modifies this`ehcs
      ensures ehcs == FilterBlocks(old(ehcs), p)
    {
      for b := 0 to |ehcs|
        invariant |ehcs| == |old(ehcs)|
        invariant forall i :: 0 <= i < |ehcs| ==>
                    ehcs[i] == if i < b then FilterBlocks(old(ehcs), p)[i] else old(ehcs)[i]
      {
        var kept := EraseUnless(ehcs[b].stmts, p);
        ehcs := ehcs[b := ehcs[b].(stmts := kept)];
      }
    }

    method DeleteBlacklistFunctions()
      modifies this`ehcs
      ensures ehcs == FilterBlocks(old(ehcs), NotBlacklisted())
    {
      EraseStatements(NotBlacklisted());
    }

    /** Verifies or denies the doubtful blocks. The two counters run on from block to block. */
    method HandleMaybe(undoFns: seq<string>)
      modifies this`ehcs
      ensures ehcs == Judge(old(ehcs), undoFns, 0, 0)
    {
      hide Judge, CountCalls, CountKnown, Verdict, IsDoubtful;
      var total, verified := 0, 0;
      ghost var was := ehcs;
      for b := 0 to |ehcs|
        invariant |ehcs| == |was| && ehcs[b..] == was[b..]
        invariant ehcs[..b] + Judge(was[b..], undoFns, total, verified) == Judge(was, undoFns, 0, 0)
      {
        JudgeStep(was, b, undoFns, total, verified);
        ghost var before := ehcs[..b];
        var e;
        e, total, verified := JudgeBlock(ehcs[b], undoFns, total, verified);
        ehcs := ehcs[b := e];
        assert ehcs[..b + 1] == before + [e] && ehcs[b + 1..] == was[b + 1..];
      }
      JudgeNone(undoFns, total, verified);
      assert was[|was|..] == [];
    }

    method HandleLoops()
      modifies this`ehcs
      ensures ehcs == FilterBlocks(old(ehcs), NotLoop())
    {
      EraseStatements(NotLoop());
    }

    method HandleCriticalSections()
      modifies this`ehcs
      ensures ehcs == FilterBlocks(old(ehcs), NotLock())
    {
      EraseStatements(NotLock());
    }

    method HandleReturn()
      modifies this`ehcs
      ensures ehcs == ReturnlessBlocks(old(ehcs))
    {
      for b := 0 to |ehcs|
        invariant |ehcs| == |old(ehcs)|
        invariant forall i :: 0 <= i < |ehcs| ==>
                    ehcs[i] == if i < b then ReturnlessBlocks(old(ehcs))[i] else old(ehcs)[i]
      {
        var kept := EraseReturns(ehcs[b].stmts);
        ehcs := ehcs[b := ehcs[b].(stmts := kept)];
      }
    }

    /** Finds in every block the statements that no block before it has. */
    method FindEhcNewStmts()
      requires Unique([body])
      modifies this`ehcs
      ensures ehcs == NewBlocks(old(ehcs), body)
    {
      hide Unique;
      ghost var was := ehcs;
      for b := 0 to |ehcs|
        invariant |ehcs| == |was|
        invariant forall i :: 0 <= i < |ehcs| ==> ehcs[i] == if i < b then NewBlocks(was, body)[i] else was[i]
      {
        var firsts := NewStatements(ehcs, b, body);
        SameBlocksSameNews(was, ehcs, b, body);
        ehcs := ehcs[b := ehcs[b].(firsts := firsts)];
      }
    }

    /** Looks for the statement that each new statement undoes. */
    method FindPairs()
      requires forall e :: e in ehcs ==> Printable(e.firsts)
      modifies this`ehcs
      ensures |ehcs| == |old(ehcs)|
      ensures forall b :: 0 <= b < |ehcs| ==> Printable(old(ehcs)[b].firsts)
      ensures forall b :: 0 <= b < 2 && b < |ehcs| ==>
                BlockPaired(old(ehcs)[b], ehcs[b], body, body.startLine, old(ehcs)[b].head.startLine)
      ensures forall b :: 2 <= b < |ehcs| ==>
                BlockPaired(old(ehcs)[b], ehcs[b], body, old(ehcs)[b - 2].head.endLine, old(ehcs)[b].head.startLine)
    {
      hide Paired;
      ghost var was := ehcs;
      for b := 0 to |ehcs|
        invariant |ehcs| == |was|
        invariant forall i :: b <= i < |ehcs| ==> ehcs[i] == was[i]
        invariant forall i :: 0 <= i < |ehcs| ==> ehcs[i].head == was[i].head
        invariant forall i :: 0 <= i < b ==>
                    Printable(was[i].firsts)
        invariant forall i :: 0 <= i < 2 && i < b ==>
                    BlockPaired(was[i], ehcs[i], body, body.startLine, was[i].head.startLine)
        invariant forall i :: 2 <= i < b ==>
                    BlockPaired(was[i], ehcs[i], body, was[i - 2].head.endLine, was[i].head.startLine)
      {
        var startLine := if b >= 2 then ehcs[b - 2].head.endLine else body.startLine;
        assert was[b] in was;
        var firsts := PairBlock(ehcs[b].firsts, body, startLine, ehcs[b].head.startLine);
        ehcs := ehcs[b := ehcs[b].(firsts := firsts)];
      }
    }

    /** Collects the outer undo statements below a statement. */
    method OuterEhcsRecursiveVisit(stmt: Stmt, undoFns: seq<string>)
      requires Unique([body])
      modifies this`outers
      ensures outers == old(outers) + OutersIn(stmt.kids, undoFns, body)
      decreases stmt
    {
      hide OutersIn, Unique, Path, IsOuterUndo, AsOuter;
      for i := 0 to |stmt.kids|
        invariant outers + OutersIn(stmt.kids[i..], undoFns, body) == old(outers) + OutersIn(stmt.kids, undoFns, body)
      {
        var kid := stmt.kids[i];
        OutersInSteps(stmt.kids[i..], undoFns, body);
        assert stmt.kids[i..][1..] == stmt.kids[i + 1..];
        var parent := FindParentRecursive(kid.id, body);
        var isOuter := IsOuterHere(kid, undoFns, parent);
        OuterTest(kid, undoFns, body, parent);
        if isOuter {
          outers := outers + [AsOuter(kid, undoFns)];
        }
        OuterEhcsRecursiveVisit(kid, undoFns);
      }
      NoOutersIn(stmt.kids[|stmt.kids|..], undoFns, body);
    }

    /** Erases the later outers that print like outer i and keeps their statements as its duplicates. */
    method AbsorbDuplicates(i: nat)
      requires i < |outers|
      modifies this`outers
      ensures var first, rest := old(outers)[i], old(outers)[i + 1..];
              outers == old(outers)[..i]
                        + [first.(duplicates :=
                             first.duplicates + StmtsOf(Filter(rest, SameSource(first.stmt.source))))]
                        + Filter(rest, OtherSource(first.stmt.source))
    {
      hide Filter, StmtsOf;
      var head, rest := Absorb(outers[i], outers[i + 1..]);
      outers := outers[..i] + [head] + rest;
    }

    /** Marks the new statements that print in the file like the outer. */
    method MarkInner(o: Outer)
      modifies this`ehcs
      ensures ehcs == MarkBlocks(old(ehcs), [o])
    {
      hide MarkFirsts, MarkBlocks;
      ghost var was := ehcs;
      for b := 0 to |ehcs|
        invariant |ehcs| == |was| && ehcs[b..] == was[b..]
        invariant ehcs[..b] + MarkBlocks(was[b..], [o]) == MarkBlocks(was, [o])
      {
        MarkBlocksStep(was, b, [o]);
        var firsts := MarkSame(ehcs[b].firsts, o);
        ehcs := ehcs[b := ehcs[b].(firsts := firsts)];
      }
      MarkNoBlocks(was[|was|..], [o]);
    }

    method HandleOuterEhcsDuplicates()
      modifies this`ehcs, this`outers
      ensures outers == Merge(old(outers))
      ensures ehcs == MarkBlocks(old(ehcs), Merge(old(outers)))
    {
      hide MarkBlocks, Filter, StmtsOf;
      var i := 0;
      MarkNothing(ehcs);
      while i < |outers|
        invariant i <= |outers|
        invariant outers[..i] + Merge(outers[i..]) == Merge(old(outers))
        invariant ehcs == MarkBlocks(old(ehcs), outers[..i])
        decreases |outers| - i
      {
        MergeFront(outers[..i], outers[i..]);
        assert outers[i..][1..] == outers[i + 1..];
        ghost var rest, source, before := outers[i + 1..], outers[i].stmt.source, outers[..i];
        FilterLength(rest, OtherSource(source));
        AbsorbDuplicates(i);
        assert outers[..i] == before && outers[i + 1..] == Filter(rest, OtherSource(source));
        assert outers[..i + 1] == before + [outers[i]];
        MarkBlocksAgain(old(ehcs), before, outers[i]);
        MarkInner(outers[i]);
        i := i + 1;
      }
      assert outers[i..] == [] && outers[..i] == outers;
      assert Merge([]) == [];
    }

    /** Collects the outer undo statements and merges those with the same text. */
    method FindOuterEhcs(undoFns: seq<string>)
      requires Unique([body])
      modifies this`ehcs, this`outers
      ensures outers == Merge(OutersIn(body.kids, undoFns, body))
      ensures ehcs == MarkBlocks(old(ehcs), outers)
    {
      hide Unique, OutersIn, Merge, MarkBlocks;
      outers := [];
      OuterEhcsRecursiveVisit(body, undoFns);
      assert outers == OutersIn(body.kids, undoFns, body);
      HandleOuterEhcsDuplicates();
    }

    /** Adds the statements below `base` that outer i undoes to its pairs. */
    method OuterPairRecursiveVisit(base: Stmt, i: nat)
      requires i < |outers|
      modifies this`outers
      ensures outers == old(outers)[i := old(outers)[i].(pairs :=
                old(outers)[i].pairs + Matches(base.kids, old(outers)[i].stmt))]
      decreases base
    {
      hide IsPair;
      ghost var o := outers[i];
      for n := 0 to |base.kids|
        invariant |outers| == |old(outers)| && outers == old(outers)[i := outers[i]]
        invariant outers[i] == o.(pairs := outers[i].pairs)
        invariant outers[i].pairs + Matches(base.kids[n..], o.stmt) == o.pairs + Matches(base.kids, o.stmt)
      {
        var kid := base.kids[n];
        assert base.kids[n..][1..] == base.kids[n + 1..];
        if IsPair(outers[i].stmt, kid) {
          outers := outers[i := outers[i].(pairs := outers[i].pairs + [kid])];
        } else {
          OuterPairRecursiveVisit(kid, i);
        }
      }
      assert base.kids[|base.kids|..] == [] && outers[i].pairs + [] == outers[i].pairs;
    }

    /** The pairs of the outers: the search for what a lock release matches, and for the calls that the database knows
        a choice that is not part of this model. */
    method FindOuterEhcsPairs(choose: Outer -> seq<Stmt>)
      modifies this`outers
      ensures outers == WithPairs(old(outers), body, choose)
    {
      hide Matches, IsRelease;
      for i := 0 to |outers|
        invariant |outers| == |old(outers)|
        invariant forall j :: 0 <= j < |outers| ==>
                    outers[j] == if j < i then WithPairs(old(outers), body, choose)[j] else old(outers)[j]
      {
        if IsReleaseCall(outers[i].stmt) {
          OuterPairRecursiveVisit(body, i);
        } else {
          outers := outers[i := outers[i].(pairs := outers[i].pairs + choose(outers[i]))];
        }
      }
    }

    method AssignInnerIds() returns (id: bv64)
      modifies this`ehcs
      ensures ehcs == NumberBlocks(old(ehcs), 0) && id == SlotId(CountSlots(old(ehcs)))
    {
      hide SlotId, NumberFirsts, CountInner, NumberBlocks, CountSlots;
      ghost var was := ehcs;
      id := 0x01;
      ghost var k: nat := 0;
      FirstSlotId();
      for b := 0 to |ehcs|
        invariant |ehcs| == |was| && ehcs[b..] == was[b..] && id == SlotId(k)
        invariant ehcs[..b] + NumberBlocks(was[b..], k) == NumberBlocks(was, 0)
        invariant k + CountSlots(was[b..]) == CountSlots(was)
      {
        NumberBlocksStep(was, b, k);
        var firsts;
        firsts, id := NumberOne(ehcs[b].firsts, id, k);
        k := k + CountInner(was[b].firsts);
        ehcs := ehcs[b := ehcs[b].(firsts := firsts)];
      }
      NumberNoMoreBlocks(was[|was|..], k);
    }

    /** Hands out the bits of the mask: first to the statements that are not outer, block by block, then to the
        outers. */
    method AssignPairmaskId()
      modifies this`ehcs, this`outers
      ensures ehcs == NumberBlocks(old(ehcs), 0)
      ensures outers == NumberOuters(old(outers), CountSlots(old(ehcs)))
    {
      hide SlotId, NumberOuters, NumberBlocks, CountSlots;
      ghost var was, n := outers, CountSlots(ehcs);
      var id := AssignInnerIds();
      ghost var k: nat := n;
      for i := 0 to |outers|
        invariant |outers| == |was| && outers[i..] == was[i..] && id == SlotId(k)
        invariant outers[..i] + NumberOuters(was[i..], k) == NumberOuters(was, n)
        invariant ehcs == NumberBlocks(old(ehcs), 0)
      {
        NumberOutersStep(was, i, k);
        NextSlotId(k);
        outers := outers[i := outers[i].(id := id)];
        id := id << 1;
        k := k + 1;
      }
      NumberNoOuters(was[|was|..], k);
    }
  
    /** The passes over the lists, in the generator's order. */
    method Analyse(heads: seq<Head>, undoFns: seq<string>, choose: Outer -> seq<Stmt>)
      requires Unique([body]) && AllResolvable(heads, body) && ehcs == []
      requires forall h :: h in heads ==> h.stmt in Below(body)
      requires forall s :: s in Below(body) ==> s.text != ""
      requires "kfree" in undoFns && "kzfree" in undoFns
      modifies this
      ensures outers == WithPairs(Merge(OutersIn(body.kids, undoFns, body)), body, choose)
      ensures OutersOf(outers, undoFns, body) && ReleasesPaired(outers, body) && Settled(ehcs, outers)
      ensures AllAlike(BuiltBlocks(heads, body, undoFns), ehcs)
    {
      hide Unique, BlocksOf, Resolvable, FilterBlocks, NotBlacklisted, NotLoop, NotLock, Judge, ReturnlessBlocks, Alike;
      hide NewBlocks, BlocksInside, AllJustFound, Printable, MarkBlocks, Merge, OutersIn, WithPairs, DistinctSources;
      FindEhcStmts(heads);
      BlocksOfInside(heads, body);
      FilterInside(ehcs, NotBlacklisted(), body);
      DeleteBlacklistFunctions();
      JudgeInside(ehcs, undoFns, body);
      HandleMaybe(undoFns);
      FilterInside(ehcs, NotLoop(), body);
      HandleLoops();
      FilterInside(ehcs, NotLock(), body);
      HandleCriticalSections();
      ReturnlessInside(ehcs, body);
      HandleReturn();
      NewsAreFound(ehcs, body);
      FindEhcNewStmts();
      ghost var built := ehcs;
      assert built == BuiltBlocks(heads, body, undoFns);
      SearchPairs();
      ghost var merged, paired := Merge(OutersIn(body.kids, undoFns, body)), ehcs;
      MarkingSettles(ehcs, undoFns, body);
      FindOuterEhcs(undoFns);
      MarkingKeepsAlike(paired, merged);
      AlikeTrans(built, paired, ehcs);
      ChoosingKeepsSettled(ehcs, merged, body, choose);
      PairsKeepSources(merged, body, choose, "");
      NothingPairedYet(merged, undoFns, body);
      PairsAreReleased(merged, body, choose);
      PairsKeepStmts(merged, body, choose);
      FindOuterEhcsPairs(choose);
    }

    method SearchPairs()
      requires AllJustFound(ehcs, body) && forall s :: s in Below(body) ==> s.text != ""
      modifies this`ehcs
      ensures forall b :: 0 <= b < |ehcs| ==> PairsFound(ehcs[b].firsts, body)
      ensures AllAlike(old(ehcs), ehcs)
    {
      hide BlockPaired, PairsFound, JustFound, Alike;
      ghost var was := ehcs;
      FoundArePrintable(ehcs, body);
      FindPairs();
      forall b | 0 <= b < |ehcs| ensures PairsFound(ehcs[b].firsts, body) {
        if b < 2 {
          PairedAreFound(was[b], ehcs[b], body, body.startLine, was[b].head.startLine);
        } else {
          PairedAreFound(was[b], ehcs[b], body, was[b - 2].head.endLine, was[b].head.startLine);
        }
      }
      forall b | 0 <= b < |ehcs| ensures Alike(was[b], ehcs[b]) {
        if b < 2 {
          PairingKeepsAlike(was[b], ehcs[b], body, body.startLine, was[b].head.startLine);
        } else {
          PairingKeepsAlike(was[b], ehcs[b], body, was[b - 2].head.endLine, was[b].head.startLine);
        }
      }
    }

    /** The passes that insert text, in the generator's order, into a file that has no insertions yet. The result is
        the cleanup block, or nothing when no jump leads to it. */
    method Emplace(rw: Rewriter) returns (lines: Option<seq<Line>>, ghost plan: Plan)
      requires Unique([body]) && rw.edits == map[]
      modifies this, rw
      ensures ehcs == NumberBlocks(old(ehcs), 0) && outers == NumberOuters(old(outers), CountSlots(old(ehcs)))
      ensures plan == PlanOf(old(ehcs), old(outers), body) && EditsConform(rw.edits, plan.slots)
      ensures JumpsAt(rw.edits, Opens(body.kids) + Ends(JumpsIn(body)))
      ensures OutersStamped(plan, rw.edits, ehcs, outers, body) && InnersStamped(plan, rw.edits, ehcs, body)
      ensures lines == None <==> Opens(body.kids) == [] && JumpsIn(body) == []
      ensures lines.Some? ==> lines.value == CleanupLines(ehcs, outers)
    {
      hide OutersStamped, InnersStamped, PlanOf;
      hide JumpsAt, Unique, Inserted, Grown, NumberBlocks, NumberOuters, CountSlots, EditsConform, SlotsOf, OrderOf,
           JumpsIn;
      hide CleanupLines;
      plan := PlanOf(ehcs, outers, body);
      var n := InsertGotosBlocks(rw, body);
      ghost var e1 := rw.edits;
      AssignPairmaskId();
      var m := InsertGotos(rw, body);
      ghost var e2 := rw.edits;
      StampBlocks(rw, ehcs, body);
      ghost var e3 := rw.edits;
      StampOuters(rw, outers, body);
      TextConforms(e1, e2, e3, rw.edits, Opens(body.kids), Ends(JumpsIn(body)), old(ehcs), old(outers), body);
      PlanSlots(old(ehcs), old(outers), body);
      OutersAreStamped(plan, rw.edits, old(ehcs), old(outers), body);
      InnersAreStamped(plan, rw.edits, old(ehcs), old(outers), body);
      lines := None;
      if n + m > 0 {
        var all := GenerateLines(ehcs, outers);
        lines := Some(all);
      }
    }

    /** All passes over a function that is not of the closing kind. Jumps stand behind the opening braces and behind the
        surviving places and nowhere else. Whatever the numbering of the callees, the function with the inserted text
        keeps its plan, the cleanup block has one line for every slot, every new undo statement either owns a slot or
        prints like exactly one outer, and the blocks are those of the heads. */
    method Instrument(rw: Rewriter, heads: seq<Head>, undoFns: seq<string>, choose: Outer -> seq<Stmt>)
        returns (lines: Option<seq<Line>>, ghost plan: Plan)
      requires Unique([body]) && AllResolvable(heads, body) && ehcs == [] && rw.edits == map[]
      requires forall h :: h in heads ==> h.stmt in Below(body)
      requires forall s :: s in Below(body) ==> s.text != ""
      requires "kfree" in undoFns && "kzfree" in undoFns
      modifies this, rw
      ensures Lists(plan.order, 0, |plan.slots|)
      ensures OutersStamped(plan, rw.edits, ehcs, outers, body) && InnersStamped(plan, rw.edits, ehcs, body)
      ensures lines == None <==> Opens(body.kids) == [] && JumpsIn(body) == []
      ensures JumpsAt(rw.edits, Opens(body.kids) + Ends(JumpsIn(body)))
      ensures forall callees :: FnConforms(Fn(EmitBody(body, rw.edits, callees), false, CleanupOf(lines)), plan)
      ensures OutersOf(outers, undoFns, body) && ReleasesPaired(outers, body) && Settled(ehcs, outers)
      ensures AllAlike(BuiltBlocks(heads, body, undoFns), ehcs)
      ensures ehcs == NumberBlocks(ehcs, 0) && outers == NumberOuters(outers, CountSlots(ehcs))
      ensures lines.Some? ==> lines.value == CleanupLines(ehcs, outers)
    {
      hide AllAlike, BuiltBlocks, Unique, Resolvable, EditsConform, NumberBlocks, NumberOuters, CountSlots, PlanOf,
           CleanupLines;
      hide JumpsIn, Opens, Ends, Settled, DistinctSources, Lists, FnConforms, EmitBody, CleanupOf, WithPairs, Merge;
      hide OutersIn, OutersStamped, InnersStamped;
      Analyse(heads, undoFns, choose);
      ghost var e, o := ehcs, outers;
      NumberingKeepsSettled(e, o);
      NumberedSources(o, CountSlots(e), "");
      NumberingKeepsStmts(o, CountSlots(e));
      NumberBlocksTwice(e, 0);
      NumberOutersTwice(o, CountSlots(e));
      NumberingKeepsPairs(o, CountSlots(e), body);
      PlanIsComplete(e, o, body);
      NumberingKeepsAlike(e);
      AlikeTrans(BuiltBlocks(heads, body, undoFns), e, NumberBlocks(e, 0));
      lines, plan := Emplace(rw);
      PlanSlots(e, o, body);
      NoPlaces(body);
      forall callees: map<string, nat>
        ensures FnConforms(Fn(EmitBody(body, rw.edits, callees), false, CleanupOf(lines)), plan)
      {
        GeneratedConforms(body, rw.edits, callees, e, o, lines);
      }
    }

    /** A function of the closing kind receives jumps only. */
    method InstrumentClosing(rw: Rewriter)
      requires Unique([body]) && rw.edits == map[]
      modifies rw
      ensures forall callees :: FnConforms(Fn(EmitBody(body, rw.edits, callees), true, []), Plan([], []))
      ensures JumpsAt(rw.edits, Opens(body.kids) + Ends(JumpsIn(body)))
      ensures unchanged(this)
    {
      hide Unique, Inserted, FnConforms, EmitBody, JumpsAt, Opens, Ends, JumpsIn;
      var n := InsertGotosBlocks(rw, body);
      ghost var e := rw.edits;
      n := InsertGotos(rw, body);
      ClosingJumps(e, rw.edits, Opens(body.kids), Ends(JumpsIn(body)));
      forall callees: map<string, nat>
        ensures FnConforms(Fn(EmitBody(body, rw.edits, callees), true, []), Plan([], []))
      {
        ClosingConforms(body, rw.edits, callees, e);
      }
    }
  }

  lemma NoPlaces(body: Stmt)
    ensures Opens(body.kids) == [] && JumpsIn(body) == [] ==> Opens(body.kids) + Ends(JumpsIn(body)) == []
  {
  }

  lemma ClosingConforms(body: Stmt, edits: map<nat, seq<Item>>, callees: map<string, nat>, e: map<nat, seq<Item>>)
    requires Inserted(map[], e, Opens(body.kids), Hgoto) && Inserted(e, edits, Ends(JumpsIn(body)), Hgoto)
    ensures FnConforms(Fn(EmitBody(body, edits, callees), true, []), Plan([], []))
  {
    hide Inserted, Opens, Ends, JumpsIn, EmitBody, CodeConforms;
    assert EditsConform(edits, []) by {
      forall at: nat ensures ItemsConform(Behind(edits, at), [], at) {
        JumpsOnly(e, edits, Opens(body.kids), Ends(JumpsIn(body)), at);
      }
    }
    BodyConforms(body, edits, callees, []);
    assert GuardsOf(Plan([], []), []) == [];
  }

  /** What stands at a location after two rounds of jumps. */
  lemma TwoInsertions(e: map<nat, seq<Item>>, edits: map<nat, seq<Item>>, opens: seq<nat>, ends: seq<nat>, at: nat)
    requires Inserted(map[], e, opens, Hgoto) && Inserted(e, edits, ends, Hgoto)
    ensures Behind(edits, at) == Hits(opens, at, Hgoto) + (Hits(ends, at, Hgoto) + [])
  {
    assert Behind(map[], at) == [];
    hide Inserted, Behind, Hits;
    InsertedAt(map[], e, opens, Hgoto, at);
    InsertedAt(e, edits, ends, Hgoto, at);
    Joined(Hits(opens, at, Hgoto), Hits(ends, at, Hgoto), [], []);
  }

  lemma ClosingJumps(e: map<nat, seq<Item>>, edits: map<nat, seq<Item>>, opens: seq<nat>, ends: seq<nat>)
    requires Inserted(map[], e, opens, Hgoto) && Inserted(e, edits, ends, Hgoto)
    ensures JumpsAt(edits, opens + ends)
  {
    hide Inserted, Behind, Hits, HasJump, NoJumps;
    forall at: nat ensures HasJump(Behind(edits, at)) <==> at in opens + ends {
      TwoInsertions(e, edits, opens, ends, at);
      EmptyNoJumps();
      JumpsFirst(opens, ends, [], at);
    }
  }

  lemma JumpsOnly(e: map<nat, seq<Item>>, edits: map<nat, seq<Item>>, opens: seq<nat>, ends: seq<nat>, at: nat)
    requires Inserted(map[], e, opens, Hgoto) && Inserted(e, edits, ends, Hgoto)
    ensures ItemsConform(Behind(edits, at), [], at)
  {
    hide Inserted, Behind, Hits, ItemsConform;
    TwoInsertions(e, edits, opens, ends, at);
    JumpsThenStamps(opens, ends, [], at);
    assert StampsFrom([], 0, at) == [];
  }

  lemma PlanSlots(ehcs: seq<EHC>, outers: seq<Outer>, body: Stmt)
    ensures PlanOf(ehcs, outers, body).slots == SlotsOf(ehcs, outers, body)
  {
  }
}
