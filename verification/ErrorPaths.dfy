/** The blocks that the passes build, followed through to the cleanup block. */
module ErrorPaths {
  import opened Basics
  import opened Sequences
  import opened MaskWord
  import opened Tree
  import opened Blocks
  import opened Slots
  import opened Ladder
  import opened LabelLadder
  import opened Gotos
  import R = Runtime
  import opened Outers
  import opened UndoOrder
  import opened Passes

  /** The blocks of the heads after all filter passes and with their new statements, in the generator's order. */
  function BuiltBlocks(heads: seq<Head>, body: Stmt, undoFns: seq<string>): seq<EHC>
    requires AllResolvable(heads, body)
  {
    var judged := Judge(FilterBlocks(BlocksOf(heads, body), NotBlacklisted()), undoFns, 0, 0);
    NewBlocks(ReturnlessBlocks(FilterBlocks(FilterBlocks(judged, NotLoop()), NotLock())), body)
  }

  /** The two blocks agree but for what the search for pairs and the allocation of slots add. */
  predicate Alike(e: EHC, e': EHC) {
    && e'.kind == e.kind && e'.head == e.head && e'.stmts == e.stmts && |e'.firsts| == |e.firsts|
    && forall i :: 0 <= i < |e.firsts| ==>
         e'.firsts[i].stmt == e.firsts[i].stmt && e'.firsts[i].kind == e.firsts[i].kind
  }

  predicate AllAlike(ehcs: seq<EHC>, ehcs': seq<EHC>) {
    |ehcs'| == |ehcs| && forall b :: 0 <= b < |ehcs| ==> Alike(ehcs[b], ehcs'[b])
  }

  lemma AlikeTrans(a: seq<EHC>, b: seq<EHC>, c: seq<EHC>)
    requires AllAlike(a, b) && AllAlike(b, c)
    ensures AllAlike(a, c)
  {
    forall i | 0 <= i < |a| ensures Alike(a[i], c[i]) {
      assert Alike(a[i], b[i]) && Alike(b[i], c[i]);
    }
  }

  lemma PairingKeepsAlike(e: EHC, e': EHC, body: Stmt, startLine: nat, endLine: nat)
    requires Printable(e.firsts) && BlockPaired(e, e', body, startLine, endLine)
    ensures Alike(e, e')
  {
    hide Candidates;
    forall i | 0 <= i < |e.firsts|
      ensures e'.firsts[i].stmt == e.firsts[i].stmt && e'.firsts[i].kind == e.firsts[i].kind
    {
      assert Paired(e.firsts[i], e'.firsts[i], body, startLine, endLine);
    }
  }

  lemma MarkingKeepsAlike(ehcs: seq<EHC>, outers: seq<Outer>)
    ensures AllAlike(ehcs, MarkBlocks(ehcs, outers))
  {
    hide MarkFirsts, HasSource;
    MarkBlocksAt(ehcs, outers);
    forall b | 0 <= b < |ehcs| ensures Alike(ehcs[b], MarkBlocks(ehcs, outers)[b]) {
      MarkedAt(ehcs[b].firsts, outers);
    }
  }

  lemma NumberingKeepsAlike(ehcs: seq<EHC>)
    ensures AllAlike(ehcs, NumberBlocks(ehcs, 0))
  {
    hide SlotId, NumberFirsts, NumberBlocks;
    if ehcs == [] {
      NumberNoBlocks();
    } else {
      NumberBlocksAt(ehcs, 0, 0);
    }
    forall b | 0 <= b < |ehcs| ensures Alike(ehcs[b], NumberBlocks(ehcs, 0)[b]) {
      NumberBlocksAt(ehcs, 0, b);
      NumberFirstsKinds(ehcs[b].firsts, CountSlots(ehcs[..b]));
    }
  }

  lemma {:induction false} NumberFirstsKinds(firsts: seq<NewStmt>, k: nat)
    ensures |NumberFirsts(firsts, k)| == |firsts|
    ensures forall i :: 0 <= i < |firsts| ==>
              NumberFirsts(firsts, k)[i].stmt == firsts[i].stmt && NumberFirsts(firsts, k)[i].kind == firsts[i].kind
  {
    hide SlotId;
    if firsts != [] {
      NumberFirstsKinds(firsts[1..], if firsts[0].isOuter then k else k + 1);
    }
  }

  // ----- what a built block is -----

  lemma BuiltAt(heads: seq<Head>, body: Stmt, undoFns: seq<string>, b: nat)
    requires AllResolvable(heads, body) && b < |heads|
    ensures |BuiltBlocks(heads, body, undoFns)| == |heads|
    ensures BuiltBlocks(heads, body, undoFns)[b].head == heads[b].stmt
    ensures BuiltBlocks(heads, body, undoFns)[b].stmts == Filtered(BlockOf(heads[b], body))
    ensures BuiltBlocks(heads, body, undoFns)[b].firsts == NewIn(BuiltBlocks(heads, body, undoFns), b, body)
  {
    hide NotBlacklisted, NotLoop, NotLock, BlockOf, Filter, WithoutReturns, Judge, NewIn;
    var blocks := FilterBlocks(BlocksOf(heads, body), NotBlacklisted());
    var judged := Judge(blocks, undoFns, 0, 0);
    JudgeAt(blocks, undoFns, 0, 0, b);
    var ready := ReturnlessBlocks(FilterBlocks(FilterBlocks(judged, NotLoop()), NotLock()));
    assert judged[b].stmts == blocks[b].stmts;
    SameBlocksSameNews(ready, NewBlocks(ready, body), b, body);
  }

  /** The blocks that come out of the passes are the filtered lists of their heads, with their first occurrences, so
      what is proved of ladders applies to every function none of whose blocks is denied. */
  lemma BuiltBlocksAre(heads: seq<Head>, body: Stmt, undoFns: seq<string>)
    requires AllResolvable(heads, body) && AllQuiet(heads, body)
    ensures var built := BuiltBlocks(heads, body, undoFns);
            Built(built, heads, body)
            && ((forall b :: 0 <= b < |built| ==> !built[b].kind.Denied?) <==> FirstsFound(built, body))
  {
    hide BuiltBlocks, NewIn, Resolvable, FilteredBlock, IsNew, UndosOf, Filter;
    var built := BuiltBlocks(heads, body, undoFns);
    if heads != [] {
      BuiltAt(heads, body, undoFns, 0);
    } else {
      NothingBuilt(body, undoFns);
    }
    forall b: nat | b < |heads|
      ensures built[b].stmts == FilteredBlock(heads[b], body) && built[b].firsts == NewIn(built, b, body)
    {
      BuiltAt(heads, body, undoFns, b);
      FilteredIs(heads[b], body);
    }
    forall b: nat | b < |heads| && !built[b].kind.Denied?
      ensures UndosOf(built[b].firsts) == Filter(built[b].stmts, IsNew(built, b, body))
    {
      NewIs(built, b, body);
    }
  }

  lemma {:induction false} UndosOfNew(ss: seq<Stmt>, kind: EhcType)
    ensures UndosOf(AsNew(ss, kind)) == ss
  {
    if ss != [] {
      UndosOfNew(ss[1..], kind);
      var rest := AsNew(ss[1..], kind);
      assert ([NewStmt(ss[0], None, 0, false, kind)] + rest)[1..] == rest;
    }
  }

  lemma NewIs(ehcs: seq<EHC>, b: nat, body: Stmt)
    requires b < |ehcs| && !ehcs[b].kind.Denied?
    ensures UndosOf(NewIn(ehcs, b, body)) == Filter(ehcs[b].stmts, IsNew(ehcs, b, body))
  {
    UndosOfNew(Filter(ehcs[b].stmts, IsNew(ehcs, b, body)), ehcs[b].kind);
  }

  lemma NothingBuilt(body: Stmt, undoFns: seq<string>)
    ensures BuiltBlocks([], body, undoFns) == []
  {
  }

  lemma FilteredIs(h: Head, body: Stmt)
    requires QuietHead(h, body)
    ensures FilteredBlock(h, body) == Filtered(BlockOf(h, body))
  {
  }

  // ----- through to the cleanup block -----

  /** What the search for pairs, the marking and the allocation of slots add does not matter. */
  lemma {:induction false} UndosAlike(a: seq<NewStmt>, b: seq<NewStmt>)
    requires |a| == |b| && forall i :: 0 <= i < |a| ==> a[i].stmt == b[i].stmt
    ensures UndosOf(a) == UndosOf(b)
  {
    if a != [] {
      UndosAlike(a[1..], b[1..]);
    }
  }

  /** Blocks that came out of the passes, with whatever was added to their new statements since. */
  lemma BuiltStays(heads: seq<Head>, body: Stmt, undoFns: seq<string>, ehcs: seq<EHC>)
    requires AllResolvable(heads, body) && AllQuiet(heads, body)
    requires AllAlike(BuiltBlocks(heads, body, undoFns), ehcs)
    requires forall b :: 0 <= b < |ehcs| ==> !ehcs[b].kind.Denied?
    ensures Built(ehcs, heads, body) && FirstsFound(ehcs, body)
  {
    hide BuiltBlocks, Resolvable, FilteredBlock, QuietHead, IsNew, NewIn;
    var built := BuiltBlocks(heads, body, undoFns);
    BuiltBlocksAre(heads, body, undoFns);
    forall b | 0 <= b < |built| ensures Alike(built[b], ehcs[b]) {
    }
    forall b | 0 <= b < |ehcs|
      ensures UndosOf(ehcs[b].firsts) == Filter(ehcs[b].stmts, IsNew(ehcs, b, body))
    {
      assert Alike(built[b], ehcs[b]);
      UndosAlike(built[b].firsts, ehcs[b].firsts);
      SameFilter(ehcs[b].stmts, built, ehcs, b, body);
    }
  }

  /** From the heads to the cleanup block. For a function whose error path is a row of labels, none of whose blocks is
      denied, and the bits that block k speaks of: what the cleanup block runs is, for fresh rungs, the outers that the
      path of step k names, last collected first, and then the rest of the path in order. Text for text it is the path
      that every run of the function's own code from the label of head k goes through, without the statements that the
      filters drop, if and only if the rungs are fresh, the undos known as outers come first on the path, and they come
      in the order opposite to that of the outers. */
  lemma PassesKeepTheErrorPath(ehcs: seq<EHC>, outers: seq<Outer>, heads: seq<Head>, body: Stmt, undoFns: seq<string>,
                               k: nat, mask: bv64, P: R.Program, env: R.Env, callees: map<string, nat>, st: R.State,
                               ev: seq<R.Event>)
    requires Unique([body]) && AllResolvable(heads, body) && AllQuiet(heads, body) && LabelsInRow(heads, body)
    requires AllAlike(BuiltBlocks(heads, body, undoFns), ehcs) && Settled(ehcs, outers)
    requires forall b :: 0 <= b < |ehcs| ==> !ehcs[b].kind.Denied?
    requires k < |heads| && HasTarget(Siblings(heads[k], body), TargetOf(heads[k], body))
    requires Steady(ErrorPath(heads[k], body))
    requires k < |ehcs| && BitsOfBlock(mask, ehcs, outers, k)
    requires Ended(P, env, FromTheLabel(Siblings(heads[k], body), TargetOf(heads[k], body), callees), st, ev)
    ensures var path := Filtered(Reached(P, env, Siblings(heads[k], body), TargetOf(heads[k], body), callees, st, ev));
            var ran := RanUnder(CleanupLines(NumberBlocks(ehcs, 0), NumberOuters(outers, CountSlots(ehcs))), mask);
            var isFresh := (forall j :: 0 <= j <= k ==> FreshRung(ehcs, j, outers, body));
            && (SourcesOf(ran) == SourcesOf(path) <==>
                isFresh && KnownFirst(path, outers) && KnownReversed(path, outers))
            && (isFresh <==>
                ran == Reversed(StmtsOf(Filter(outers, WrittenIn(path)))) + Filter(path, UnknownTo(outers)))
  {
    hide BuiltBlocks, Resolvable, BitsOfBlock, FreshRung, LabelsInRow, Filtered, NumberBlocks, NumberOuters, CheckBit,
         SlotId;
    hide Built, InnerLines, OuterLines, ErrorPath, Reached, Steady, FirstsFound, QuietHead, CountSlots, Ended;
    hide FromTheLabel, HasTarget, Siblings, TargetOf, Unique, Settled, KnownFirst, KnownReversed, SourcesOf, Reversed;
    hide StmtsOf, WrittenIn, UnknownTo, AllAlike;
    BuiltStays(heads, body, undoFns, ehcs);
    CleanupRunsTheErrorPath(ehcs, outers, heads, body, k, mask, P, env, callees, st, ev);
  }

  /** When every known undo on the path of step k is the first of its text in the body, the cleanup block runs, for
      fresh rungs, the known undos of the path in reverse and then its other statements in order. It keeps to the path
      if and only if the rungs are fresh, at most one undo of the path is known, and that one comes first. */
  lemma KnownUndosComeReversed(ehcs: seq<EHC>, outers: seq<Outer>, heads: seq<Head>, body: Stmt, undoFns: seq<string>,
                           k: nat, mask: bv64, P: R.Program, env: R.Env, callees: map<string, nat>, st: R.State,
                           ev: seq<R.Event>)
    requires Unique([body]) && AllResolvable(heads, body) && AllQuiet(heads, body) && LabelsInRow(heads, body)
    requires AllAlike(BuiltBlocks(heads, body, undoFns), ehcs) && Settled(ehcs, outers)
    requires OutersOf(outers, undoFns, body)
    requires forall b :: 0 <= b < |ehcs| ==> !ehcs[b].kind.Denied?
    requires k < |heads| && HasTarget(Siblings(heads[k], body), TargetOf(heads[k], body))
    requires Steady(ErrorPath(heads[k], body))
    requires k < |ehcs| && BitsOfBlock(mask, ehcs, outers, k)
    requires Ended(P, env, FromTheLabel(Siblings(heads[k], body), TargetOf(heads[k], body), callees), st, ev)
    requires AllWrittenFirst(ehcs[k].stmts, outers, undoFns, body)
    ensures var path := Filtered(Reached(P, env, Siblings(heads[k], body), TargetOf(heads[k], body), callees, st, ev));
            var ran := RanUnder(CleanupLines(NumberBlocks(ehcs, 0), NumberOuters(outers, CountSlots(ehcs))), mask);
            var isFresh := (forall j :: 0 <= j <= k ==> FreshRung(ehcs, j, outers, body));
            && (ran == Reversed(Filter(path, KnownTo(outers))) + Filter(path, UnknownTo(outers)) <==> isFresh)
            && (SourcesOf(ran) == SourcesOf(path) <==>
                isFresh && KnownFirst(path, outers) && |Filter(path, KnownTo(outers))| <= 1)
  {
    hide BuiltBlocks, Resolvable, BitsOfBlock, FreshRung, LabelsInRow, Filtered, NumberBlocks, NumberOuters, CheckBit,
         SlotId;
    hide Built, InnerLines, OuterLines, Reached, Steady, FirstsFound, CountSlots, Ended, Below, Within, UpToReturn;
    hide FromTheLabel, HasTarget, Unique, Settled, KnownFirst, KnownReversed, SourcesOf, Reversed, OutersOf, Cores;
    hide StmtsOf, WrittenIn, UnknownTo, KnownTo, AllAlike, AllWrittenFirst, AllDistinct;
    var ss := ehcs[k].stmts;
    BuiltStays(heads, body, undoFns, ehcs);
    CleanupRunsTheErrorPath(ehcs, outers, heads, body, k, mask, P, env, callees, st, ev);
    BodyIsDistinct(body);
    PathStandsInBody(ehcs, heads, body, k);
    NamedInOrder(ss, outers, undoFns, body);
    DistinctOuters(outers, undoFns, body);
    AtMostOneKnown(ss, outers);
  }

  lemma DistinctOuters(outers: seq<Outer>, undoFns: seq<string>, body: Stmt)
    requires OutersOf(outers, undoFns, body)
    ensures DistinctSources(outers)
  {
  }

  lemma BodyIsDistinct(body: Stmt)
    requires Unique([body])
    ensures AllDistinct(Below(body))
  {
    UniqueIsDistinct(body.kids);
  }

  lemma PathStandsInBody(ehcs: seq<EHC>, heads: seq<Head>, body: Stmt, k: nat)
    requires AllQuiet(heads, body) && Built(ehcs, heads, body) && k < |heads| && QuietHead(heads[k], body)
    ensures Within(ehcs[k].stmts, Below(body))
  {
    hide Filtered, Cores, UpToReturn;
    QuietBlock(heads[k], body);
    PathWithin(body, TargetOf(heads[k], body));
  }
}
