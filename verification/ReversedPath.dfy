/** A function with two known undos on its error path, and the order in which its cleanup block runs them. */
module ReversedPath {
  import opened Basics
  import opened Sequences
  import opened MaskWord
  import opened Tree
  import opened Blocks
  import opened Slots
  import opened Outers
  import opened Ladder
  import opened UndoOrder
  import opened Jumps
  import R = Runtime
  import opened Unwinding
  import opened Stamps
  import opened Gotos
  import opened Passes
  import opened ErrorPaths
  import opened Pass2

  // ----- the function -----

  // if (c) { goto err_y; } if (c) { goto err_x; } err_x: kfree(x); err_y: kfree(y); return;

  function FreeX(): Stmt {
    Stmt(11, Call("kfree", ["x"], ["x"]), "kfree(x)", "kfree(x)", false, true, 50, 51, 6, 6, false, [])
  }

  function FreeY(): Stmt {
    Stmt(12, Call("kfree", ["y"], ["y"]), "kfree(y)", "kfree(y)", false, true, 60, 61, 8, 8, false, [])
  }

  function ErrX(): Stmt {
    Stmt(9, Labelled, "err_x", "err_x: kfree(x)", false, false, 48, 51, 5, 6, false, [FreeX()])
  }

  function ErrY(): Stmt {
    Stmt(10, Labelled, "err_y", "err_y: kfree(y)", false, false, 58, 61, 7, 8, false, [FreeY()])
  }

  function Leave(): Stmt {
    Stmt(13, Return(None), "return", "return", false, true, 70, 71, 9, 9, false, [])
  }

  function Condition(id: nat): Stmt {
    Stmt(id, Other, "c", "c", false, false, 0, 1, 2, 2, false, [])
  }

  function Jump(id: nat, target: nat): Stmt {
    Stmt(id, Goto(target), "goto", "goto", false, true, 20, 21, 3, 3, false, [])
  }

  function Branch(id: nat, target: nat): Stmt {
    Stmt(id, Compound(15 + id), "{}", "{}", false, false, 15, 30, 3, 3, false, [Jump(id + 1, target)])
  }

  function Check(id: nat, target: nat): Stmt {
    Stmt(id, IfStmt("c"), "if", "if", false, false, 10, 30, 2, 3, false, [Condition(id + 1), Branch(id + 2, target)])
  }

  function TwoFrees(): Stmt {
    Stmt(0, Compound(1), "{}", "{}", false, false, 0, 80, 1, 10, false,
         [Check(1, 10), Check(5, 9), ErrX(), ErrY(), Leave()])
  }

  function TwoHeads(): seq<Head> {
    [Head(GotoEhc, Branch(3, 10)), Head(GotoEhc, Branch(7, 9))]
  }

  // ----- its shape -----

  lemma Grow(s: Stmt, rest: seq<Stmt>)
    requires Unique(s.kids) && Unique(rest) && s.id !in Ids(s.kids) && ({s.id} + Ids(s.kids)) !! Ids(rest)
    ensures Unique([s] + rest) && Ids([s] + rest) == {s.id} + Ids(s.kids) + Ids(rest)
    ensures Flatten([s] + rest) == [s] + Flatten(s.kids) + Flatten(rest)
  {
    assert ([s] + rest)[1..] == rest;
  }

  lemma One(s: Stmt)
    requires Unique(s.kids) && s.id !in Ids(s.kids)
    ensures Unique([s]) && Ids([s]) == {s.id} + Ids(s.kids) && Flatten([s]) == [s] + Flatten(s.kids)
  {
    assert [s] + [] == [s];
    Grow(s, []);
  }

  lemma CheckShape(id: nat, target: nat)
    ensures Unique(Check(id, target).kids) && Ids(Check(id, target).kids) == {id + 1, id + 2, id + 3}
    ensures Flatten(Check(id, target).kids) == [Condition(id + 1), Branch(id + 2, target), Jump(id + 3, target)]
  {
    var c, b, j := Condition(id + 1), Branch(id + 2, target), Jump(id + 3, target);
    One(j);
    One(b);
    Grow(c, [b]);
    assert [c] + [b] == Check(id, target).kids;
  }

  lemma LabelShape()
    ensures Unique(ErrX().kids) && Ids(ErrX().kids) == {11} && Flatten(ErrX().kids) == [FreeX()]
    ensures Unique(ErrY().kids) && Ids(ErrY().kids) == {12} && Flatten(ErrY().kids) == [FreeY()]
  {
    One(FreeX());
    One(FreeY());
  }

  function Heads(): seq<Stmt> {
    [Check(1, 10), Condition(2), Branch(3, 10), Jump(4, 10), Check(5, 9), Condition(6), Branch(7, 9), Jump(8, 9)]
  }

  lemma Labels()
    ensures var rest := [ErrX(), ErrY(), Leave()];
            Unique(rest) && Ids(rest) == {9, 10, 11, 12, 13}
            && Flatten(rest) == [ErrX(), FreeX(), ErrY(), FreeY(), Leave()]
  {
    var x, y, z := ErrX(), ErrY(), Leave();
    LabelShape();
    Numbers();
    Nothing();
    hide ErrX, ErrY, Leave, FreeX, FreeY, Unique, Ids, Flatten;
    One(z);
    Grow(y, [z]);
    assert [y] + [z] == [y, z] && Ids([y, z]) == {10, 12, 13} && Flatten([y, z]) == [y, FreeY(), z];
    Grow(x, [y, z]);
    assert [x] + [y, z] == [x, y, z];
  }

  lemma CheckGrows(id: nat, target: nat, rest: seq<Stmt>)
    requires Unique(rest) && forall n :: n in Ids(rest) ==> n > id + 3
    ensures var all := [Check(id, target)] + rest;
            && Unique(all) && Ids(all) == {id, id + 1, id + 2, id + 3} + Ids(rest)
            && Flatten(all) == [Check(id, target), Condition(id + 1), Branch(id + 2, target), Jump(id + 3, target)]
                               + Flatten(rest)
  {
    CheckShape(id, target);
    hide Unique, Ids, Flatten;
    Grow(Check(id, target), rest);
  }

  lemma KidsShape()
    ensures var a, b, rest := Check(1, 10), Check(5, 9), [ErrX(), ErrY(), Leave()];
            Unique([a] + ([b] + rest)) && 0 !in Ids([a] + ([b] + rest)) && Flatten([a] + ([b] + rest)) ==
            [a, Condition(2), Branch(3, 10), Jump(4, 10)]
            + ([b, Condition(6), Branch(7, 9), Jump(8, 9)] + [ErrX(), FreeX(), ErrY(), FreeY(), Leave()])
  {
    var b, rest := Check(5, 9), [ErrX(), ErrY(), Leave()];
    Labels();
    hide Check, ErrX, ErrY, Leave, FreeX, FreeY, Unique, Ids, Flatten, Condition, Branch, Jump;
    CheckGrows(5, 9, rest);
    CheckGrows(1, 10, [b] + rest);
  }

  lemma Shape()
    ensures Unique(TwoFrees().kids) && Unique([TwoFrees()])
    ensures Below(TwoFrees()) == Heads() + [ErrX(), FreeX(), ErrY(), FreeY(), Leave()]
    ensures TwoFrees().kids == [Check(1, 10), Check(5, 9), ErrX(), ErrY(), Leave()]
  {
    KidsShape();
    Numbers();
    hide Check, ErrX, ErrY, Leave, FreeX, FreeY, Unique, Ids, Flatten, Condition, Branch, Jump;
    assert [Check(1, 10)] + ([Check(5, 9)] + [ErrX(), ErrY(), Leave()]) == TwoFrees().kids;
    One(TwoFrees());
  }

  lemma Nothing()
    ensures Unique([]) && Ids([]) == {} && Flatten([]) == []
  {
  }

  lemma Numbers()
    ensures Check(1, 10).id == 1 && Check(5, 9).id == 5 && ErrX().id == 9 && ErrY().id == 10 && Leave().id == 13
    ensures Leave().kids == [] && TwoFrees().id == 0
  {
  }

  // ----- nothing of it is filtered but the return -----

  /** The word begins unlike any stretch of `kfree(x)` and `kfree(y)`. */
  predicate Strange(word: string) {
    && |word| >= 2 && word[0] != 'k' && word[0] != 'e' && word[0] != '(' && word[0] != 'x' && word[0] != 'y'
    && (word[0] == 'f' ==> word[1] == 'o') && (word[0] == 'r' ==> word[1] == 'c')
  }

  lemma StrangeWord(i: nat)
    requires i < |BLACKLIST|
    ensures Strange(BLACKLIST[i])
  {
  }

  lemma StrangeWords()
    ensures forall w :: w in BLACKLIST ==> Strange(w)
  {
    hide Strange, BLACKLIST;
    forall i: nat | i < |BLACKLIST| ensures Strange(BLACKLIST[i]) {
      StrangeWord(i);
    }
  }

  lemma MoreStrangeWords()
    ensures (forall w :: w in LOOPS ==> Strange(w)) && forall w :: w in LOCKS ==> Strange(w)
  {
  }

  lemma Unmentioned(text: string, word: string)
    requires Strange(word) && (text == "kfree(x)" || text == "kfree(y)")
    ensures !Contains(text, word)
  {
    forall i | 0 <= i <= |text| - |word| ensures !OccursAt(text, word, i) {
      assert text[i..i + |word|][0] == text[i] && text[i..i + |word|][1] == text[i + 1];
    }
  }

  lemma FreesStay(s: Stmt)
    requires s == FreeX() || s == FreeY()
    ensures NotBlacklisted()(s) && NotLoop()(s) && NotLock()(s)
  {
    StrangeWords();
    MoreStrangeWords();
    hide Strange, BLACKLIST, LOOPS, LOCKS;
    forall w | Strange(w) ensures !Contains(s.text, w) {
      Unmentioned(s.text, w);
    }
  }

  lemma {:induction false} SieveKeeps(ss: seq<Stmt>)
    requires forall s :: s in ss ==> s == FreeX() || s == FreeY()
    ensures Sieve(ss) == ss
  {
    hide NotBlacklisted, NotLoop, NotLock;
    forall s | s in ss ensures NotBlacklisted()(s) && NotLoop()(s) && NotLock()(s) {
      FreesStay(s);
    }
    FilterAll(ss, NotBlacklisted());
    FilterAll(ss, NotLoop());
    FilterAll(ss, NotLock());
  }

  lemma FilteredPath(ss: seq<Stmt>)
    requires forall s :: s in ss ==> s == FreeX() || s == FreeY()
    ensures Filtered(ss + [Leave()]) == ss
  {
    hide Sieve;
    SieveAppend(ss, [Leave()]);
    SieveKeeps(ss);
    var last := Sieve([Leave()]);
    forall s | s in last ensures s == Leave() {
      SieveMembers([Leave()], s);
    }
    var p := NoReturn(ReturnedVars(ss + last));
    FilterAppend(ss, last, p);
    FilterAll(ss, p);
    FilterNone(last, p);
  }

  // ----- the blocks -----

  lemma HeadsInside()
    ensures forall h :: h in TwoHeads() ==> h.stmt in Below(TwoFrees())
  {
    Shape();
    hide Check, ErrX, ErrY, Leave, FreeX, FreeY, Unique, Ids, Flatten, Below, Branch, TwoFrees;
    forall h | h in TwoHeads() ensures h.stmt in Below(TwoFrees()) {
      assert h.stmt == Heads()[2] || h.stmt == Heads()[6];
    }
  }

  lemma PathBelow(body: Stmt, s: Stmt)
    requires Unique(body.kids) && s in body.kids && s.id != body.id
    ensures Path([body], s.id) == [body, s]
  {
    PathToRoot(body.kids, s);
  }

  /** The head jumps to a label among the top-level statements. */
  lemma HeadJumps(h: Head, body: Stmt, spot: Stmt)
    requires h.kind.GotoEhc? && LastGoto(h.stmt.kids) == Some(spot.id) && Filter(h.stmt.kids, NotGoto()) == []
    requires Unique(body.kids) && spot in body.kids && spot.id != body.id
    ensures Resolvable(h, body) && BlockOf(h, body) == Collected(body.kids, spot.id)
  {
    PathBelow(body, spot);
  }

  lemma LabelsInside()
    ensures Unique(TwoFrees().kids) && ErrX() in TwoFrees().kids && ErrY() in TwoFrees().kids
    ensures ErrX().id == 9 && ErrY().id == 10 && TwoFrees().id == 0
  {
    Shape();
    assert TwoFrees().kids[2] == ErrX() && TwoFrees().kids[3] == ErrY();
  }

  lemma FirstBlock()
    ensures Resolvable(TwoHeads()[0], TwoFrees())
    ensures BlockOf(TwoHeads()[0], TwoFrees()) == [FreeY()] + [Leave()]
  {
    hide TwoFrees, ErrX, ErrY, Leave, FreeX, FreeY, Unique, Resolvable, BlockOf, Branch, Filter, LastGoto, Collected;
    LabelsInside();
    HeadResolves(3, 10);
    CollectedAre();
    HeadJumps(TwoHeads()[0], TwoFrees(), ErrY());
  }

  lemma SecondBlock()
    ensures Resolvable(TwoHeads()[1], TwoFrees())
    ensures BlockOf(TwoHeads()[1], TwoFrees()) == [FreeX(), FreeY()] + [Leave()]
  {
    hide TwoFrees, ErrX, ErrY, Leave, FreeX, FreeY, Unique, Resolvable, BlockOf, Branch, Filter, LastGoto, Collected;
    LabelsInside();
    HeadResolves(7, 9);
    CollectedAre();
    HeadJumps(TwoHeads()[1], TwoFrees(), ErrX());
  }

  lemma HeadsResolve()
    ensures AllResolvable(TwoHeads(), TwoFrees())
  {
    FirstBlock();
    SecondBlock();
    hide Resolvable, TwoFrees;
  }

  lemma HeadResolves(id: nat, target: nat)
    ensures LastGoto(Branch(id, target).kids) == Some(target) && Filter(Branch(id, target).kids, NotGoto()) == []
  {
    var j := Jump(id + 1, target);
    assert [j][1..] == [];
  }

  lemma CollectedAre()
    ensures Collected(TwoFrees().kids, 10) == [FreeY(), Leave()]
    ensures Collected(TwoFrees().kids, 9) == [FreeX(), FreeY(), Leave()]
    ensures From(TwoFrees().kids, 9) == [ErrX(), ErrY(), Leave()]
  {
    Numbers();
    var kids, x, y, z := TwoFrees().kids, ErrX(), ErrY(), Leave();
    assert kids[1..][1..] == [x, y, z] && [x, y, z][1..] == [y, z] && [y, z][1..] == [z] && [z][1..] == [];
    assert From(kids[1..], 9) == [x, y, z] && From([x, y, z], 10) == [y, z];
    CoresOne();
    assert UpToReturn([z]) == [z] && UpToReturn([y, z]) == [y, z] && UpToReturn([x, y, z]) == [x, y, z];
    assert Cores([z]) == [z] && Cores([y, z]) == [FreeY(), z] && Cores([x, y, z]) == [FreeX(), FreeY(), z];
  }

  lemma CoresOne()
    ensures Core(ErrX()) == FreeX() && Core(ErrY()) == FreeY() && Core(Leave()) == Leave()
  {
  }

  // ----- both undos are known -----

  lemma NoCallsInHeads(p: Stmt -> bool)
    requires forall s :: p(s) ==> s.kind.Call?
    ensures Filter(Heads(), p) == [] && !p(ErrX()) && !p(ErrY()) && !p(Leave())
  {
    forall s | s in Heads() ensures !p(s) {
      assert !s.kind.Call?;
    }
    FilterNone(Heads(), p);
  }

  lemma FreesAreUndos(undoFns: seq<string>)
    requires "kfree" in undoFns
    ensures var p := IsOuterUndo(undoFns, TwoFrees());
            p(FreeX()) && p(FreeY()) && forall s :: p(s) ==> s.kind.Call?
  {
  }

  lemma UndosOfBody(undoFns: seq<string>)
    requires "kfree" in undoFns
    ensures Filter(Below(TwoFrees()), IsOuterUndo(undoFns, TwoFrees())) == [FreeX(), FreeY()]
  {
    hide FreeX, FreeY, ErrX, ErrY, Leave, Heads, TwoFrees, Below, IsOuterUndo, Unique, Check;
    FreesAreUndos(undoFns);
    Shape();
    var p, x, y := IsOuterUndo(undoFns, TwoFrees()), FreeX(), FreeY();
    NoCallsInHeads(p);
    FilterAppend(Heads(), [ErrX(), x, ErrY(), y, Leave()], p);
    FilterCons(Leave(), [], p);
    FilterCons(y, [Leave()], p);
    FilterCons(ErrY(), [y, Leave()], p);
    FilterCons(x, [ErrY(), y, Leave()], p);
    FilterCons(ErrX(), [x, ErrY(), y, Leave()], p);
    assert [y] + [Leave()] == [y, Leave()] && [ErrY()] + [y, Leave()] == [ErrY(), y, Leave()];
    assert [Leave()] + [] == [Leave()];
    assert [x] + [ErrY(), y, Leave()] == [x, ErrY(), y, Leave()];
    assert [ErrX()] + [x, ErrY(), y, Leave()] == [ErrX(), x, ErrY(), y, Leave()];
  }

  lemma MergeTwo(x: Outer, y: Outer)
    requires x.stmt.source != y.stmt.source
    ensures StmtsOf(Merge([x, y])) == [x.stmt, y.stmt]
  {
    assert [x, y][1..] == [y] && [y][1..] == [];
    assert Filter([y], OtherSource(x.stmt.source)) == [y];
    var a, b := Merge([x, y])[0], Merge([y])[0];
    assert Merge([y]) == [b] && Merge([x, y]) == [a, b] && a.stmt == x.stmt && b.stmt == y.stmt;
    assert [a, b][1..] == [b] && [b][1..] == [];
    assert StmtsOf([b]) == [y.stmt];
  }

  lemma TwoAsOuters(a: Stmt, b: Stmt, undoFns: seq<string>)
    ensures AsOuters([a, b], undoFns) == [AsOuter(a, undoFns), AsOuter(b, undoFns)]
  {
    hide AsOuter;
    assert [a, b][1..] == [b] && [b][1..] == [];
    assert AsOuters([b], undoFns) == [AsOuter(b, undoFns)];
  }

  lemma OutersAreFrees(outers: seq<Outer>, undoFns: seq<string>)
    requires "kfree" in undoFns && OutersOf(outers, undoFns, TwoFrees())
    ensures StmtsOf(outers) == [FreeX(), FreeY()] && |outers| == 2
    ensures HasSource(outers, FreeX().source) && HasSource(outers, FreeY().source)
  {
    hide FreeX, FreeY, IsOuterUndo, AsOuter, TwoFrees, HasSource, Merge, DistinctSources, Filter;
    UndosOfBody(undoFns);
    var x, y := AsOuter(FreeX(), undoFns), AsOuter(FreeY(), undoFns);
    TwoAsOuters(FreeX(), FreeY(), undoFns);
    AsOuterOf(FreeX(), undoFns);
    AsOuterOf(FreeY(), undoFns);
    SourcesDiffer();
    MergeTwo(x, y);
    StmtsAt(outers);
    Names(outers, 0);
    Names(outers, 1);
  }

  lemma Names(outers: seq<Outer>, i: nat)
    requires i < |outers|
    ensures HasSource(outers, outers[i].stmt.source)
  {
  }

  lemma AsOuterOf(s: Stmt, undoFns: seq<string>)
    ensures AsOuter(s, undoFns).stmt == s
  {
  }

  lemma SourcesDiffer()
    ensures FreeX().source != FreeY().source
  {
    assert FreeX().source[6] != FreeY().source[6];
  }

  /** The blocks that come out of the passes. */
  lemma BlocksAre(ehcs: seq<EHC>, outers: seq<Outer>, undoFns: seq<string>)
    requires AllResolvable(TwoHeads(), TwoFrees()) && AllAlike(BuiltBlocks(TwoHeads(), TwoFrees(), undoFns), ehcs)
    requires "kfree" in undoFns && OutersOf(outers, undoFns, TwoFrees()) && Settled(ehcs, outers)
    ensures |ehcs| == 2 && ehcs[0].stmts == [FreeY()] && ehcs[1].stmts == [FreeX(), FreeY()]
    ensures AllOuter(ehcs[0].firsts) && AllOuter(ehcs[1].firsts)
  {
    hide TwoFrees, FreeX, FreeY, Leave, BuiltBlocks, NewIn, BlockOf, Filtered, HasSource, Resolvable, Branch;
    var heads, body := TwoHeads(), TwoFrees();
    var built := BuiltBlocks(heads, body, undoFns);
    FirstBlock();
    SecondBlock();
    FilteredPath([FreeY()]);
    FilteredPath([FreeX(), FreeY()]);
    OutersAreFrees(outers, undoFns);
    forall b: nat | b < 2
      ensures |built| == 2 && built[b].stmts == ehcs[b].stmts
      ensures ehcs[b].stmts == (if b == 0 then [FreeY()] else [FreeX(), FreeY()]) && AllOuter(ehcs[b].firsts)
    {
      BuiltAt(heads, body, undoFns, b);
      assert Alike(built[b], ehcs[b]);
      NewsAre(built, b, body);
      forall i | 0 <= i < |ehcs[b].firsts| ensures ehcs[b].firsts[i].isOuter {
        assert ehcs[b].firsts[i].stmt == built[b].firsts[i].stmt;
        assert built[b].firsts[i].stmt in built[b].stmts;
        assert HasSource(outers, ehcs[b].firsts[i].stmt.source);
      }
      AllOuterIf(ehcs[b].firsts);
    }
  }

  lemma NewsAre(ehcs: seq<EHC>, b: nat, body: Stmt)
    requires b < |ehcs|
    ensures forall i :: 0 <= i < |NewIn(ehcs, b, body)| ==> NewIn(ehcs, b, body)[i].stmt in ehcs[b].stmts
  {
    hide IsNew;
    var fresh_ := Filter(ehcs[b].stmts, IsNew(ehcs, b, body));
    AsNewAt(fresh_, ehcs[b].kind);
    FilterKeeps(ehcs[b].stmts, IsNew(ehcs, b, body));
  }

  predicate AllOuter(firsts: seq<NewStmt>) {
    firsts != [] ==> firsts[0].isOuter && AllOuter(firsts[1..])
  }

  lemma {:induction false} AllOuterIf(firsts: seq<NewStmt>)
    requires forall i :: 0 <= i < |firsts| ==> firsts[i].isOuter
    ensures AllOuter(firsts)
  {
    if firsts != [] {
      AllOuterIf(firsts[1..]);
    }
  }

  lemma {:induction false} NoInners(firsts: seq<NewStmt>)
    requires AllOuter(firsts)
    ensures CountInner(firsts) == 0 && InnersOf(firsts) == []
  {
    if firsts != [] {
      NoInners(firsts[1..]);
    }
  }

  lemma NoInnersInTwo(ehcs: seq<EHC>)
    requires |ehcs| == 2 && AllOuter(ehcs[0].firsts) && AllOuter(ehcs[1].firsts)
    ensures CountSlots(ehcs) == 0 && InnerDown(ehcs, 2) == []
  {
    NoInners(ehcs[0].firsts);
    NoInners(ehcs[1].firsts);
    hide CountInner, InnersOf;
    assert ehcs[1..][1..] == [] && CountSlots(ehcs[1..]) == 0;
    assert InnerDown(ehcs, 0) == [] && InnerDown(ehcs, 1) == [];
  }

  // ----- what the cleanup block runs -----

  lemma BothAwake(outers: seq<Outer>, mask: bv64)
    requires |outers| == 2 && CheckBit(mask, SlotId(0)) && CheckBit(mask, SlotId(1))
    ensures Awake(outers, 0, mask) == outers
  {
    hide CheckBit, SlotId;
    var p: Outer -> bool := (o: Outer) => true;
    AwakeAre(outers, 0, mask, p);
    FilterAll(outers, p);
  }

  lemma CleanupIsReversed(ehcs: seq<EHC>, outers: seq<Outer>, undoFns: seq<string>, mask: bv64)
    requires AllResolvable(TwoHeads(), TwoFrees()) && AllAlike(BuiltBlocks(TwoHeads(), TwoFrees(), undoFns), ehcs)
    requires "kfree" in undoFns && OutersOf(outers, undoFns, TwoFrees()) && Settled(ehcs, outers)
    requires ehcs == NumberBlocks(ehcs, 0) && outers == NumberOuters(outers, CountSlots(ehcs))
    requires CheckBit(mask, SlotId(0)) && CheckBit(mask, SlotId(1))
    ensures |ehcs| == 2 && ehcs[1].stmts == [FreeX(), FreeY()]
    ensures RanUnder(CleanupLines(ehcs, outers), mask) == [FreeY(), FreeX()]
  {
    hide CheckBit, SlotId, TwoFrees, FreeX, FreeY, BuiltBlocks, OutersOf, Settled, Resolvable, RanUnder, CleanupLines;
    hide NumberBlocks, NumberOuters, Awake, CountSlots, AllAlike, InnerDown, FirstSlots;
    BlocksAre(ehcs, outers, undoFns);
    OutersAreFrees(outers, undoFns);
    NoInnersInTwo(ehcs);
    assert ehcs[..2] == ehcs;
    NoSlotsBelow(mask);
    CleanupRuns(ehcs, outers, 2, mask);
    BothAwake(outers, mask);
    assert [FreeX(), FreeY()][1..] == [FreeY()] && [FreeY()][1..] == [];
    assert Reversed([FreeY()]) == [FreeY()];
    assert Reversed([FreeX(), FreeY()]) == [FreeY(), FreeX()];
  }

  lemma NoSlotsBelow(mask: bv64)
    ensures FirstSlots(mask, 0, 0)
  {
  }

  // ----- what the function itself does -----

  lemma LabelFinishes(s: Stmt)
    requires s == ErrX() || s == ErrY()
    ensures OnlyFinishes(s)
  {
    var kid := s.kids[0];
    assert [kid][1..] == [] && s.kids == [kid];
  }

  lemma PathIsSteady()
    ensures Steady(From(TwoFrees().kids, 9)) && HasTarget(TwoFrees().kids, 9)
  {
    CollectedAre();
    LabelFinishes(ErrX());
    LabelFinishes(ErrY());
    hide OnlyFinishes, FreeX, FreeY;
    assert [ErrX(), ErrY(), Leave()][1..] == [ErrY(), Leave()] && [ErrY(), Leave()][1..] == [Leave()];
    assert Steady([Leave()]) && Steady([ErrY(), Leave()]);
  }

  lemma PathIsInOrder(P: R.Program, env: R.Env, callees: map<string, nat>, st: R.State, ev: seq<R.Event>)
    requires Ended(P, env, FromTheLabel(TwoFrees().kids, 9, callees), st, ev)
    ensures Reached(P, env, TwoFrees().kids, 9, callees, st, ev) == [FreeX(), FreeY(), Leave()]
  {
    hide TwoFrees, FreeX, FreeY, Leave, Reached, FromTheLabel, Ended, Steady, HasTarget;
    LabelsInside();
    CollectedAre();
    PathIsSteady();
    GotoResolution(TwoFrees().kids, 9);
  }

  /** Through the generator: every run of the function from its first error label frees x and then y. With the bits of
      both undos set, the cleanup block frees y and then x. */
  method TwoFreesComeReversed(undoFns: seq<string>, choose: Outer -> seq<Stmt>) returns (lines: Option<seq<Line>>)
    requires "kfree" in undoFns && "kzfree" in undoFns
    ensures forall P, env, callees, st, ev ::
              Ended(P, env, FromTheLabel(TwoFrees().kids, ErrX().id, callees), st, ev) ==>
                Reached(P, env, TwoFrees().kids, ErrX().id, callees, st, ev) == [FreeX(), FreeY(), Leave()]
    ensures lines.Some? && forall mask :: CheckBit(mask, SlotId(0)) && CheckBit(mask, SlotId(1)) ==>
              RanUnder(lines.value, mask) == [FreeY(), FreeX()]
  {
    hide TwoFrees, FreeX, FreeY, Leave, ErrX, Reached, FromTheLabel, Ended, CheckBit, SlotId, BuiltBlocks, RanUnder;
    hide CleanupLines, NumberBlocks, NumberOuters, CountSlots, OutersOf, Settled, AllAlike, Resolvable, FnConforms;
    hide JumpsAt, EmitBody, CleanupOf, ReleasesPaired, Lists, Opens, JumpsIn, Ends, Unique, Below, TwoHeads;
    LabelsInside();
    forall P, env, callees, st, ev | Ended(P, env, FromTheLabel(TwoFrees().kids, 9, callees), st, ev)
      ensures Reached(P, env, TwoFrees().kids, 9, callees, st, ev) == [FreeX(), FreeY(), Leave()]
    {
      PathIsInOrder(P, env, callees, st, ev);
    }
    FitToInstrument();
    var function_ := new Function(TwoFrees());
    var rw := new Rewriter();
    ghost var plan;
    lines, plan := function_.Instrument(rw, TwoHeads(), undoFns, choose);
    forall mask | CheckBit(mask, SlotId(0)) && CheckBit(mask, SlotId(1))
      ensures RanUnder(CleanupLines(function_.ehcs, function_.outers), mask) == [FreeY(), FreeX()]
    {
      CleanupIsReversed(function_.ehcs, function_.outers, undoFns, mask);
    }
  }

  /** What the passes need of a function, and that jumps are inserted into this one. */
  lemma FitToInstrument()
    ensures Unique([TwoFrees()]) && AllResolvable(TwoHeads(), TwoFrees())
    ensures forall h :: h in TwoHeads() ==> h.stmt in Below(TwoFrees())
    ensures forall s :: s in Below(TwoFrees()) ==> s.text != ""
    ensures Opens(TwoFrees().kids) != []
  {
    hide TwoHeads, Unique, Resolvable;
    Shape();
    HeadsResolve();
    HeadsInside();
    TextsAreThere();
    HasBraces();
  }

  lemma TextsAreThere()
    ensures forall s :: s in Heads() + [ErrX(), FreeX(), ErrY(), FreeY(), Leave()] ==> s.text != ""
  {
  }

  lemma HasBraces()
    ensures Opens(TwoFrees().kids) != []
  {
    var check := TwoFrees().kids[0];
    assert Opens(check.kids[1..]) != [] && Opens(check.kids) != [];
  }
}
