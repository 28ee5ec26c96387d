/** Functions whose error path is a row of labels: the cleanup block does what their own error path does. */
module LabelLadder {
  import opened Basics
  import opened Sequences
  import opened MaskWord
  import opened Tree
  import opened Blocks
  import opened Slots
  import opened Ladder
  import opened Outers
  import opened Gotos
  import R = Runtime

  function TargetOf(h: Head, body: Stmt): nat
    requires IsGotoHead(h) && Resolvable(h, body)
  {
    LastGoto(h.stmt.kids).value
  }

  /** The statements beside the label the head jumps to, from the label on. */
  function ErrorPath(h: Head, body: Stmt): seq<Stmt>
    requires IsGotoHead(h) && Resolvable(h, body)
  {
    From(ParentOn(Path([body], TargetOf(h, body))).value.kids, TargetOf(h, body))
  }

  /** A goto head whose own statements are of the kind the filters drop, such as messages. */
  predicate QuietHead(h: Head, body: Stmt) {
    && IsGotoHead(h) && Resolvable(h, body)
    && NoReturns(Filter(h.stmt.kids, NotGoto())) && Sieve(Filter(h.stmt.kids, NotGoto())) == []
  }

  predicate IsSuffix(a: seq<Stmt>, b: seq<Stmt>) {
    |a| <= |b| && b[|b| - |a|..] == a
  }

  predicate AllQuiet(heads: seq<Head>, body: Stmt) {
    forall j :: 0 <= j < |heads| ==> QuietHead(heads[j], body)
  }

  /** The label of `high` stands before the label of `low`, or at it, with no return between them. */
  predicate InRow(high: Head, low: Head, body: Stmt)
    requires QuietHead(high, body) && QuietHead(low, body)
  {
    var above, below := ErrorPath(high, body), ErrorPath(low, body);
    IsSuffix(below, above) && var between := above[..|above| - |below|]; NoReturns(between) && NoReturns(Cores(between))
  }

  predicate LabelsInRow(heads: seq<Head>, body: Stmt)
    requires AllQuiet(heads, body)
  {
    forall j :: 0 < j < |heads| ==> InRow(heads[j], heads[j - 1], body)
  }

  /** The blocks are what the filter passes left of the heads' blocks. */
  predicate Built(ehcs: seq<EHC>, heads: seq<Head>, body: Stmt)
    requires AllQuiet(heads, body)
  {
    |ehcs| == |heads| && forall j :: 0 <= j < |heads| ==> ehcs[j].stmts == FilteredBlock(heads[j], body)
  }

  function FilteredBlock(h: Head, body: Stmt): seq<Stmt>
    requires QuietHead(h, body)
  {
    Filtered(BlockOf(h, body))
  }

  lemma QuietBlock(h: Head, body: Stmt)
    requires QuietHead(h, body)
    ensures FilteredBlock(h, body) == Filtered(Cores(UpToReturn(ErrorPath(h, body))))
  {
    var own, path := Filter(h.stmt.kids, NotGoto()), Cores(UpToReturn(ErrorPath(h, body)));
    assert BlockOf(h, body) == own + path;
    FiltersKeepSuffix(own, path);
    assert Filter(Sieve(own), NoReturn(ReturnedVars(Sieve(path)))) == [];
  }

  lemma {:induction false} NoReturnBetween(between: seq<Stmt>, low: seq<Stmt>)
    requires NoReturns(between)
    ensures UpToReturn(between + low) == between + UpToReturn(low)
  {
    if between == [] {
      assert between + low == low;
      assert between + UpToReturn(low) == UpToReturn(low);
    } else {
      assert (between + low)[1..] == between[1..] + low;
      NoReturnBetween(between[1..], low);
    }
  }

  lemma PathsStack(high: seq<Stmt>, low: seq<Stmt>)
    requires IsSuffix(low, high)
    requires var between := high[..|high| - |low|]; NoReturns(between) && NoReturns(Cores(between))
    ensures IsSuffix(Filtered(Cores(UpToReturn(low))), Filtered(Cores(UpToReturn(high))))
  {
    var between := high[..|high| - |low|];
    assert high == between + low;
    NoReturnBetween(between, low);
    CoresAppend(between, UpToReturn(low));
    FiltersKeepSuffix(Cores(between), Cores(UpToReturn(low)));
  }

  lemma RowStacks(high: Head, low: Head, body: Stmt)
    requires QuietHead(high, body) && QuietHead(low, body) && InRow(high, low, body)
    ensures IsSuffix(FilteredBlock(low, body), FilteredBlock(high, body))
  {
    hide Filtered, UpToReturn, Cores;
    PathsStack(ErrorPath(high, body), ErrorPath(low, body));
    QuietBlock(high, body);
    QuietBlock(low, body);
  }

  /** Labels in a row make the filtered blocks a ladder. */
  lemma RowMakesLadder(ehcs: seq<EHC>, heads: seq<Head>, body: Stmt)
    requires AllQuiet(heads, body) && LabelsInRow(heads, body) && Built(ehcs, heads, body)
    ensures IsLadder(ehcs)
  {
    hide QuietHead, InRow, FilteredBlock;
    forall j {:trigger Rung(ehcs, j)} | 0 <= j < |ehcs|
      ensures ehcs[j].stmts == Rung(ehcs, j) + if j == 0 then [] else ehcs[j - 1].stmts
    {
      if j > 0 {
        assert QuietHead(heads[j], body) && QuietHead(heads[j - 1], body) && InRow(heads[j], heads[j - 1], body);
        RowStacks(heads[j], heads[j - 1], body);
        assert IsSuffix(ehcs[j - 1].stmts, ehcs[j].stmts);
      }
    }
  }

  /** The siblings of the label that the head jumps to. */
  function Siblings(h: Head, body: Stmt): seq<Stmt>
    requires IsGotoHead(h) && Resolvable(h, body)
  {
    ParentOn(Path([body], TargetOf(h, body))).value.kids
  }

  lemma SiblingsUnique(h: Head, body: Stmt)
    requires IsGotoHead(h) && Resolvable(h, body) && Unique([body])
    ensures Unique(Siblings(h, body))
  {
    var path := Path([body], TargetOf(h, body));
    PathInside([body], TargetOf(h, body), path[|path|-2]);
    KidsAreUnique([body], path[|path|-2]);
  }

  /** The developer's own error path and the generated cleanup block, for a row of labels and the bits that block k
      speaks of. The cleanup block runs the texts that every run of the function's own code from the label of head k
      goes through, without the statements that the filters drop, if and only if the rungs are fresh, the undos known
      as outers come first on that path, and they come in the order opposite to that of the outers. */
  lemma CleanupRunsTheErrorPath(ehcs: seq<EHC>, outers: seq<Outer>, heads: seq<Head>, body: Stmt, k: nat, mask: bv64,
                                P: R.Program, env: R.Env, callees: map<string, nat>, st: R.State, ev: seq<R.Event>)
    requires AllQuiet(heads, body) && LabelsInRow(heads, body) && Unique([body])
    requires Built(ehcs, heads, body) && FirstsFound(ehcs, body) && Settled(ehcs, outers)
    requires k < |heads| && QuietHead(heads[k], body)
    requires HasTarget(Siblings(heads[k], body), TargetOf(heads[k], body)) && Steady(ErrorPath(heads[k], body))
    requires BitsOfBlock(mask, ehcs, outers, k)
    requires Ended(P, env, FromTheLabel(Siblings(heads[k], body), TargetOf(heads[k], body), callees), st, ev)
    ensures var path := Filtered(Reached(P, env, Siblings(heads[k], body), TargetOf(heads[k], body), callees, st, ev));
            var ran := RanUnder(CleanupLines(NumberBlocks(ehcs, 0), NumberOuters(outers, CountSlots(ehcs))), mask);
            var isFresh := (forall j :: 0 <= j <= k ==> FreshRung(ehcs, j, outers, body));
            && path == ehcs[k].stmts
            && (SourcesOf(ran) == SourcesOf(path) <==>
                isFresh && KnownFirst(path, outers) && KnownReversed(path, outers))
            && (isFresh <==>
                ran == Reversed(StmtsOf(Filter(outers, WrittenIn(path)))) + Filter(path, UnknownTo(outers)))
  {
    hide BitsOfBlock, FirstsFound, FreshRung, LabelsInRow, AllQuiet, Filtered, NumberBlocks, CheckBit, SlotId, Ended;
    hide Unique, Reached, FromTheLabel, Steady, HasTarget, Settled, KnownFirst, KnownReversed, SourcesOf, Reversed;
    hide StmtsOf, WrittenIn, UnknownTo, NumberOuters, CleanupLines;
    RowMakesLadder(ehcs, heads, body);
    LadderCleanup(ehcs, outers, k, mask, body);
    QuietBlock(heads[k], body);
    SiblingsUnique(heads[k], body);
    GotoResolution(Siblings(heads[k], body), TargetOf(heads[k], body));
  }
}
