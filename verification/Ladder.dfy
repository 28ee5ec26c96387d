/** Error-handling ladders: blocks that each undo one step more than the block below, and what the cleanup runs. */
module Ladder {
  import opened Basics
  import opened Sequences
  import opened MaskWord
  import opened Tree
  import opened Blocks
  import opened Slots
  import opened Outers

  /** Of the slots below n, the mask holds the first m and no others. */
  ghost predicate FirstSlots(mask: bv64, m: nat, n: nat) {
    forall i: nat :: i < n ==> (CheckBit(mask, SlotId(i)) <==> i < m)
  }

  function UndosOf(firsts: seq<NewStmt>): seq<Stmt> {
    if firsts == [] then [] else [firsts[0].stmt] + UndosOf(firsts[1..])
  }

  /** The new statements that own a slot. */
  function InnersOf(firsts: seq<NewStmt>): seq<Stmt> {
    if firsts == [] then []
    else (if firsts[0].isOuter then [] else [firsts[0].stmt]) + InnersOf(firsts[1..])
  }

  /** The inner new statements of blocks n-1, n-2, ..., 0. */
  function InnerDown(ehcs: seq<EHC>, n: nat): seq<Stmt>
    requires n <= |ehcs|
  {
    if n == 0 then [] else InnersOf(ehcs[n - 1].firsts) + InnerDown(ehcs, n - 1)
  }

  // ----- what the cleanup block runs -----

  /** Outer lines come in the order opposite to the one in which the outers were collected. */
  lemma {:induction false} OutersRunBackwards(outers: seq<Outer>, k: nat, mask: bv64)
    ensures RanUnder(OuterLines(NumberOuters(outers, k)), mask) == Reversed(StmtsOf(Awake(outers, k, mask)))
  {
    hide CheckBit, SlotId;
    if outers != [] {
      OutersRunBackwards(outers[1..], k + 1, mask);
      var o, rest := outers[0].(id := SlotId(k)), NumberOuters(outers[1..], k + 1);
      assert ([o] + rest)[1..] == rest;
      var line := Line(SlotId(k), o.stmt);
      RanAppend(OuterLines(rest), [line], mask);
      assert [line][1..] == [];
      var more := Awake(outers[1..], k + 1, mask);
      if CheckBit(mask, SlotId(k)) {
        assert ([outers[0]] + more)[1..] == more;
        assert StmtsOf([outers[0]] + more) == [o.stmt] + StmtsOf(more);
        assert ([o.stmt] + StmtsOf(more))[1..] == StmtsOf(more);
      } else {
        assert [] + more == more;
      }
    }
  }

  lemma FirstLine(firsts: seq<NewStmt>, k: nat)
    requires firsts != []
    ensures BlockLines(NumberFirsts(firsts, k)) ==
            if firsts[0].isOuter then BlockLines(NumberFirsts(firsts[1..], k))
            else [Line(SlotId(k), firsts[0].stmt)] + BlockLines(NumberFirsts(firsts[1..], k + 1))
  {
    hide SlotId;
    var first := if firsts[0].isOuter then firsts[0] else firsts[0].(id := SlotId(k));
    var rest := NumberFirsts(firsts[1..], if firsts[0].isOuter then k else k + 1);
    assert ([first] + rest)[1..] == rest;
    assert [] + BlockLines(rest) == BlockLines(rest);
  }

  lemma RanCons(line: Line, rest: seq<Line>, mask: bv64)
    ensures RanUnder([line] + rest, mask)
            == (if CheckBit(mask, line.id) then [line.undo] else []) + RanUnder(rest, mask)
  {
    assert ([line] + rest)[1..] == rest;
  }

  lemma {:induction false} BlockRuns(firsts: seq<NewStmt>, k: nat, m: nat, n: nat, mask: bv64)
    requires FirstSlots(mask, m, n) && k + CountInner(firsts) <= n
    ensures k + CountInner(firsts) <= m ==> RanUnder(BlockLines(NumberFirsts(firsts, k)), mask) == InnersOf(firsts)
    ensures m <= k ==> RanUnder(BlockLines(NumberFirsts(firsts, k)), mask) == []
  {
    hide CheckBit, SlotId;
    if firsts != [] {
      hide RanUnder, BlockLines, NumberFirsts;
      FirstLine(firsts, k);
      if firsts[0].isOuter {
        BlockRuns(firsts[1..], k, m, n, mask);
      } else {
        BlockRuns(firsts[1..], k + 1, m, n, mask);
        RanCons(Line(SlotId(k), firsts[0].stmt), BlockLines(NumberFirsts(firsts[1..], k + 1)), mask);
        assert CheckBit(mask, SlotId(k)) <==> k < m;
      }
    }
  }

  lemma {:induction false} InnerDownFront(ehcs: seq<EHC>, n: nat)
    requires 0 < n <= |ehcs|
    ensures InnerDown(ehcs, n) == InnerDown(ehcs[1..], n - 1) + InnersOf(ehcs[0].firsts)
  {
    if n > 1 {
      InnerDownFront(ehcs, n - 1);
      assert ehcs[1..][n - 2] == ehcs[n - 1];
    }
  }

  lemma FirstBlockSplits(ehcs: seq<EHC>, k: nat, mask: bv64)
    requires ehcs != []
    ensures var c := CountInner(ehcs[0].firsts);
            RanUnder(InnerLines(NumberBlocks(ehcs, k)), mask)
            == RanUnder(InnerLines(NumberBlocks(ehcs[1..], k + c)), mask)
               + RanUnder(BlockLines(NumberFirsts(ehcs[0].firsts, k)), mask)
  {
    hide CheckBit, SlotId, RanUnder;
    var first := ehcs[0].(firsts := NumberFirsts(ehcs[0].firsts, k));
    var numbered := NumberBlocks(ehcs[1..], k + CountInner(ehcs[0].firsts));
    assert ([first] + numbered)[1..] == numbered;
    RanAppend(InnerLines(numbered), BlockLines(first.firsts), mask);
  }

  lemma {:induction false} InnerRuns(ehcs: seq<EHC>, k: nat, n: nat, top: nat, mask: bv64)
    requires n <= |ehcs| && k + CountSlots(ehcs) <= top
    requires FirstSlots(mask, k + CountSlots(ehcs[..n]), top)
    ensures RanUnder(InnerLines(NumberBlocks(ehcs, k)), mask) == InnerDown(ehcs, n)
  {
    hide CheckBit, SlotId, FirstSlots, RanUnder, NumberBlocks, InnerDown;
    if n == 0 {
      NothingRuns(ehcs, k, k, top, mask);
      assert InnerDown(ehcs, 0) == [] by { InnerDownNone(ehcs); }
    } else {
      var c, m := CountInner(ehcs[0].firsts), k + CountSlots(ehcs[..n]);
      assert ehcs[..n][1..] == ehcs[1..][..n - 1];
      BlockRuns(ehcs[0].firsts, k, m, top, mask);
      FirstBlockSplits(ehcs, k, mask);
      InnerRuns(ehcs[1..], k + c, n - 1, top, mask);
      InnerDownFront(ehcs, n);
    }
  }

  lemma InnerDownNone(ehcs: seq<EHC>)
    ensures InnerDown(ehcs, 0) == []
  {
  }

  lemma {:induction false} NothingRuns(ehcs: seq<EHC>, k: nat, m: nat, top: nat, mask: bv64)
    requires m <= k && FirstSlots(mask, m, top) && k + CountSlots(ehcs) <= top
    ensures RanUnder(InnerLines(NumberBlocks(ehcs, k)), mask) == []
  {
    hide CheckBit, SlotId, FirstSlots;
    if ehcs != [] {
      hide RanUnder, NumberBlocks, NumberFirsts, InnerLines;
      FirstBlockSplits(ehcs, k, mask);
      BlockRuns(ehcs[0].firsts, k, m, top, mask);
      NothingRuns(ehcs[1..], k + CountInner(ehcs[0].firsts), m, top, mask);
    }
  }

  /** With the bits of the first n blocks set, and whichever bits of outers: the cleanup block runs those outers, last
      collected first, and then the inner statements of the blocks, last block first. */
  lemma CleanupRuns(ehcs: seq<EHC>, outers: seq<Outer>, n: nat, mask: bv64)
    requires n <= |ehcs| && FirstSlots(mask, CountSlots(ehcs[..n]), CountSlots(ehcs))
    ensures RanUnder(CleanupLines(NumberBlocks(ehcs, 0), NumberOuters(outers, CountSlots(ehcs))), mask)
            == Reversed(StmtsOf(Awake(outers, CountSlots(ehcs), mask))) + InnerDown(ehcs, n)
  {
    hide CheckBit, SlotId, FirstSlots, RanUnder, NumberBlocks, NumberOuters, InnerDown, CountSlots, Awake, Reversed;
    InnerRuns(ehcs, 0, n, CountSlots(ehcs), mask);
    OutersRunBackwards(outers, CountSlots(ehcs), mask);
    RanAppend(OuterLines(NumberOuters(outers, CountSlots(ehcs))), InnerLines(NumberBlocks(ehcs, 0)), mask);
  }

  // ----- ladders -----

  /** Each block is some statements followed by the block before it. */
  predicate IsLadder(ehcs: seq<EHC>) {
    forall j {:trigger Rung(ehcs, j)} :: 0 <= j < |ehcs| ==>
      ehcs[j].stmts == Rung(ehcs, j) + if j == 0 then [] else ehcs[j - 1].stmts
  }

  /** What block j adds in front of block j-1. */
  function Rung(ehcs: seq<EHC>, j: nat): seq<Stmt>
    requires j < |ehcs|
  {
    if j == 0 then ehcs[0].stmts
    else ehcs[j].stmts[..if |ehcs[j].stmts| >= |ehcs[j - 1].stmts| then |ehcs[j].stmts| - |ehcs[j - 1].stmts| else 0]
  }

  /** The filters and first-occurrence pass have run: no block is denied, and each lists its new statements, whatever
      else is known of them by now. */
  predicate FirstsFound(ehcs: seq<EHC>, body: Stmt) {
    forall j :: 0 <= j < |ehcs| ==>
      !ehcs[j].kind.Denied? && UndosOf(ehcs[j].firsts) == Filter(ehcs[j].stmts, IsNew(ehcs, j, body))
  }

  /** No statement of the rung that keeps a slot of its own prints like a statement of the block below, or sits inside
      a macro. */
  predicate FreshRung(ehcs: seq<EHC>, j: nat, outers: seq<Outer>, body: Stmt)
    requires j < |ehcs|
  {
    forall s :: s in Rung(ehcs, j) && !HasSource(outers, s.source) ==>
      !InMacro(s, body) && (j > 0 ==> !TextIn(s.text, ehcs[j - 1].stmts))
  }

  /** In a ladder the block below has seen everything that any lower block has. */
  lemma {:induction false} SeenBelow(ehcs: seq<EHC>, j: nat, text: string)
    requires IsLadder(ehcs) && 0 < j <= |ehcs|
    ensures SeenBefore(ehcs, j, text) <==> TextIn(text, ehcs[j - 1].stmts)
  {
    if j > 1 {
      SeenBelow(ehcs, j - 1, text);
      assert ehcs[j - 1].stmts == Rung(ehcs, j - 1) + ehcs[j - 2].stmts;
      if TextIn(text, ehcs[j - 2].stmts) {
        var s :| s in ehcs[j - 2].stmts && s.text == text;
        assert s in ehcs[j - 1].stmts;
      }
    }
    if SeenBefore(ehcs, j, text) {
      var i :| 0 <= i < j && TextIn(text, ehcs[i].stmts);
      assert i < j - 1 ==> SeenBefore(ehcs, j - 1, text);
    }
  }

  lemma {:induction false} InnersAreUnknown(firsts: seq<NewStmt>, outers: seq<Outer>)
    requires forall i :: 0 <= i < |firsts| ==> (firsts[i].isOuter <==> HasSource(outers, firsts[i].stmt.source))
    ensures InnersOf(firsts) == Filter(UndosOf(firsts), UnknownTo(outers))
  {
    hide HasSource;
    if firsts != [] {
      InnersAreUnknown(firsts[1..], outers);
      FilterCons(firsts[0].stmt, UndosOf(firsts[1..]), UnknownTo(outers));
    }
  }

  /** In a ladder the inner statements of block j are those of its rung that are new and not known as outers; they are
      all of the rung that are not known exactly when the rung is fresh. */
  lemma InnersOfRung(ehcs: seq<EHC>, j: nat, outers: seq<Outer>, body: Stmt)
    requires IsLadder(ehcs) && FirstsFound(ehcs, body) && Settled(ehcs, outers) && j < |ehcs|
    ensures var inners, all := InnersOf(ehcs[j].firsts), Filter(Rung(ehcs, j), UnknownTo(outers));
            && |inners| <= |all| && (|inners| == |all| ==> inners == all)
            && (inners == all <==> FreshRung(ehcs, j, outers, body))
  {
    hide HasSource, InMacro, TextIn, SeenBefore;
    var p, q := IsNew(ehcs, j, body), UnknownTo(outers);
    var rung := Rung(ehcs, j);
    InnersAreUnknown(ehcs[j].firsts, outers);
    assert UndosOf(ehcs[j].firsts) == Filter(rung, p) by {
      if j > 0 {
        var below := ehcs[j - 1].stmts;
        FilterAppend(rung, below, p);
        forall s | s in below ensures !p(s) {
          SeenBelow(ehcs, j, s.text);
          SaysItself(s, below);
        }
        FilterNone(below, p);
      } else {
        assert rung == ehcs[0].stmts;
      }
    }
    FilterTwice(rung, p, q);
    forall s | s in rung ensures p(s) <==> !InMacro(s, body) && (j > 0 ==> !TextIn(s.text, ehcs[j - 1].stmts)) {
      if j > 0 {
        SeenBelow(ehcs, j, s.text);
      } else {
        NothingSeen(ehcs, s.text);
      }
    }
  }

  lemma SaysItself(s: Stmt, ss: seq<Stmt>)
    requires s in ss
    ensures TextIn(s.text, ss)
  {
  }

  lemma NothingSeen(ehcs: seq<EHC>, text: string)
    ensures !SeenBefore(ehcs, 0, text)
  {
  }

  predicate FreshUpTo(ehcs: seq<EHC>, k: nat, outers: seq<Outer>, body: Stmt)
    requires k < |ehcs|
  {
    FreshRung(ehcs, k, outers, body) && (k > 0 ==> FreshUpTo(ehcs, k - 1, outers, body))
  }

  lemma {:induction false} FreshUpToMeans(ehcs: seq<EHC>, k: nat, outers: seq<Outer>, body: Stmt)
    requires k < |ehcs|
    ensures FreshUpTo(ehcs, k, outers, body) <==> forall j :: 0 <= j <= k ==> FreshRung(ehcs, j, outers, body)
  {
    hide FreshRung;
    if k > 0 {
      FreshUpToMeans(ehcs, k - 1, outers, body);
    }
  }

  lemma FirstRung(ehcs: seq<EHC>)
    requires ehcs != []
    ensures Rung(ehcs, 0) == ehcs[0].stmts
  {
  }

  lemma RungOnBlock(ehcs: seq<EHC>, k: nat)
    requires IsLadder(ehcs) && 0 < k < |ehcs|
    ensures ehcs[k].stmts == Rung(ehcs, k) + ehcs[k - 1].stmts
  {
  }

  /** The inner statements of blocks k..0 spell what block k holds beside the outers exactly when every rung up to k is
      fresh. */
  lemma {:induction false} InnerDownSpellsBlock(ehcs: seq<EHC>, k: nat, outers: seq<Outer>, body: Stmt)
    requires IsLadder(ehcs) && FirstsFound(ehcs, body) && Settled(ehcs, outers) && k < |ehcs|
    ensures var down, all := InnerDown(ehcs, k + 1), Filter(ehcs[k].stmts, UnknownTo(outers));
            && |down| <= |all| && (|down| == |all| ==> down == all)
            && (down == all <==> FreshUpTo(ehcs, k, outers, body))
  {
    hide FirstsFound, FreshRung, IsNew, IsLadder, Rung, Settled, HasSource;
    InnersOfRung(ehcs, k, outers, body);
    var new_, rung := InnersOf(ehcs[k].firsts), Filter(Rung(ehcs, k), UnknownTo(outers));
    if k == 0 {
      assert InnerDown(ehcs, 0) == [] && new_ + [] == new_;
      assert Rung(ehcs, 0) == ehcs[0].stmts by { FirstRung(ehcs); }
    } else {
      RungOnBlock(ehcs, k);
      InnerDownSpellsBlock(ehcs, k - 1, outers, body);
      FilterAppend(Rung(ehcs, k), ehcs[k - 1].stmts, UnknownTo(outers));
      BothParts(new_, InnerDown(ehcs, k), rung, Filter(ehcs[k - 1].stmts, UnknownTo(outers)));
    }
  }

  // ----- blocks with known undos -----

  /** Among the bits of slots, exactly those that block k speaks of are set: those of the inner statements of blocks
      0..k, and those of the outers that block k names. */
  ghost predicate BitsOfBlock(mask: bv64, ehcs: seq<EHC>, outers: seq<Outer>, k: nat)
    requires k < |ehcs|
  {
    var n := CountSlots(ehcs);
    && FirstSlots(mask, CountSlots(ehcs[..k + 1]), n)
    && forall i: nat :: i < |outers| ==>
         (CheckBit(mask, SlotId(n + i)) <==> SourceIn(outers[i].stmt.source, ehcs[k].stmts))
  }

  /** Statements known as outers stand in front of all others. */
  predicate KnownFirst(ss: seq<Stmt>, outers: seq<Outer>) {
    forall i, j :: 0 <= i < j < |ss| && HasSource(outers, ss[j].source) ==> HasSource(outers, ss[i].source)
  }

  /** They stand in the order opposite to that of the outers. */
  predicate KnownReversed(ss: seq<Stmt>, outers: seq<Outer>) {
    SourcesOf(Filter(ss, KnownTo(outers))) == Reversed(SourcesOf(StmtsOf(Filter(outers, WrittenIn(ss)))))
  }

  lemma {:induction false} AwakeAre(outers: seq<Outer>, n: nat, mask: bv64, p: Outer -> bool)
    requires forall i: nat :: i < |outers| ==> (CheckBit(mask, SlotId(n + i)) <==> p(outers[i]))
    ensures Awake(outers, n, mask) == Filter(outers, p)
  {
    hide CheckBit, SlotId;
    if outers != [] {
      forall i: nat | i < |outers| - 1 ensures CheckBit(mask, SlotId(n + 1 + i)) <==> p(outers[1..][i]) {
        assert CheckBit(mask, SlotId(n + (i + 1))) <==> p(outers[i + 1]);
      }
      AwakeAre(outers[1..], n + 1, mask, p);
      assert CheckBit(mask, SlotId(n + 0)) <==> p(outers[0]);
    }
  }

  lemma {:induction false} SourcesAt(ss: seq<Stmt>)
    ensures |SourcesOf(ss)| == |ss| && forall i :: 0 <= i < |ss| ==> SourcesOf(ss)[i] == ss[i].source
  {
    if ss != [] {
      SourcesAt(ss[1..]);
    }
  }

  lemma {:induction false} SourcesAppend(a: seq<Stmt>, b: seq<Stmt>)
    ensures SourcesOf(a + b) == SourcesOf(a) + SourcesOf(b)
  {
    if a == [] {
      assert a + b == b;
    } else {
      assert (a + b)[1..] == a[1..] + b;
      SourcesAppend(a[1..], b);
    }
  }

  lemma {:induction false} SourcesReversed(ss: seq<Stmt>)
    ensures SourcesOf(Reversed(ss)) == Reversed(SourcesOf(ss))
  {
    if ss != [] {
      SourcesReversed(ss[1..]);
      SourcesAppend(Reversed(ss[1..]), [ss[0]]);
      assert [ss[0]][1..] == [];
    }
  }

  /** Where the known statements come first, the block is its known statements and then the others. */
  lemma {:induction false} KnownThenOthers(ss: seq<Stmt>, outers: seq<Outer>, n: nat)
    requires n <= |ss|
    requires forall i :: 0 <= i < |ss| ==> (HasSource(outers, ss[i].source) <==> i < n)
    ensures Filter(ss, KnownTo(outers)) == ss[..n] && Filter(ss, UnknownTo(outers)) == ss[n..]
  {
    hide HasSource;
    FilterAppend(ss[..n], ss[n..], KnownTo(outers));
    FilterAppend(ss[..n], ss[n..], UnknownTo(outers));
    assert ss == ss[..n] + ss[n..];
    FilterAll(ss[..n], KnownTo(outers));
    FilterNone(ss[n..], KnownTo(outers));
    FilterNone(ss[..n], UnknownTo(outers));
    FilterAll(ss[n..], UnknownTo(outers));
  }

  lemma {:induction false} KnownFirstSplits(ss: seq<Stmt>, outers: seq<Outer>) returns (n: nat)
    requires KnownFirst(ss, outers)
    ensures n <= |ss| && forall i :: 0 <= i < |ss| ==> (HasSource(outers, ss[i].source) <==> i < n)
  {
    hide HasSource;
    n := |ss|;
    while n > 0 && !HasSource(outers, ss[n - 1].source)
      invariant n <= |ss| && forall i :: n <= i < |ss| ==> !HasSource(outers, ss[i].source)
    {
      n := n - 1;
    }
  }

  /** Two lists, the first all known and the second all unknown, spell the texts of a block exactly when they spell the
      texts of its known and of its unknown statements, the known ones standing first. */
  lemma SpeltInParts(ss: seq<Stmt>, a: seq<Stmt>, c: seq<Stmt>, outers: seq<Outer>)
    requires forall s :: s in a ==> HasSource(outers, s.source)
    requires forall s :: s in c ==> !HasSource(outers, s.source)
    ensures SourcesOf(a + c) == SourcesOf(ss) <==>
            && KnownFirst(ss, outers) && SourcesOf(a) == SourcesOf(Filter(ss, KnownTo(outers)))
            && SourcesOf(c) == SourcesOf(Filter(ss, UnknownTo(outers)))
  {
    hide HasSource;
    SourcesAt(ss);
    SourcesAt(a);
    SourcesAt(c);
    SourcesAppend(a, c);
    if SourcesOf(a + c) == SourcesOf(ss) {
      var n := |a|;
      forall i | 0 <= i < |ss| ensures HasSource(outers, ss[i].source) <==> i < n {
        assert ss[i].source == (SourcesOf(a) + SourcesOf(c))[i];
        if i < n {
          assert a[i] in a;
        } else {
          assert c[i - n] in c;
        }
      }
      KnownThenOthers(ss, outers, n);
      assert ss == ss[..n] + ss[n..];
      SourcesAppend(ss[..n], ss[n..]);
      SourcesAt(ss[..n]);
      SameSplit(SourcesOf(a), SourcesOf(c), SourcesOf(ss[..n]), SourcesOf(ss[n..]));
    } else if KnownFirst(ss, outers) {
      var n := KnownFirstSplits(ss, outers);
      KnownThenOthers(ss, outers, n);
      assert ss == ss[..n] + ss[n..];
      SourcesAppend(ss[..n], ss[n..]);
    }
  }

  lemma {:induction false} StmtsAreKnown(outers: seq<Outer>, some_: seq<Outer>)
    requires forall o :: o in some_ ==> o in outers
    ensures forall s :: s in Reversed(StmtsOf(some_)) ==> HasSource(outers, s.source)
  {
    if some_ != [] {
      StmtsAreKnown(outers, some_[1..]);
      assert some_[0] in outers;
    }
  }

  lemma {:induction false} InnerDownUnknown(ehcs: seq<EHC>, n: nat, outers: seq<Outer>)
    requires n <= |ehcs| && Settled(ehcs, outers)
    ensures forall s :: s in InnerDown(ehcs, n) ==> !HasSource(outers, s.source)
  {
    hide HasSource;
    if n > 0 {
      InnerDownUnknown(ehcs, n - 1, outers);
      InnersAreUnknown(ehcs[n - 1].firsts, outers);
      FilterKeeps(UndosOf(ehcs[n - 1].firsts), UnknownTo(outers));
    }
  }

  /** The cleanup block against block k of a ladder, when the bits set are those that block k speaks of. It runs the
      texts of the block in their order exactly when every rung up to k is fresh, the undos that are known as outers
      stand in front of all others, and they stand in the order opposite to that of the outers. In general it runs the
      outers that the block names, last collected first, and then, of fresh rungs, the rest of the block in order. */
  lemma LadderCleanup(ehcs: seq<EHC>, outers: seq<Outer>, k: nat, mask: bv64, body: Stmt)
    requires IsLadder(ehcs) && FirstsFound(ehcs, body) && Settled(ehcs, outers) && k < |ehcs|
    requires BitsOfBlock(mask, ehcs, outers, k)
    ensures var ss := ehcs[k].stmts;
            var ran := RanUnder(CleanupLines(NumberBlocks(ehcs, 0), NumberOuters(outers, CountSlots(ehcs))), mask);
            var isFresh := (forall j :: 0 <= j <= k ==> FreshRung(ehcs, j, outers, body));
            && (SourcesOf(ran) == SourcesOf(ss) <==> isFresh && KnownFirst(ss, outers) && KnownReversed(ss, outers))
            && (ran == Reversed(StmtsOf(Filter(outers, WrittenIn(ss)))) + Filter(ss, UnknownTo(outers)) <==> isFresh)
  {
    hide FirstSlots, CheckBit, SlotId, FreshRung, FirstsFound, IsLadder, InnerDown, NumberBlocks, NumberOuters;
    hide CleanupLines, Settled, HasSource, SourceIn, CountSlots, Reversed, SourcesOf, StmtsOf, KnownFirst;
    var ss := ehcs[k].stmts;
    FreshUpToMeans(ehcs, k, outers, body);
    CleanupRuns(ehcs, outers, k + 1, mask);
    AwakeAre(outers, CountSlots(ehcs), mask, WrittenIn(ss));
    InnerDownSpellsBlock(ehcs, k, outers, body);
    var named := Filter(outers, WrittenIn(ss));
    FilterKeeps(outers, WrittenIn(ss));
    StmtsAreKnown(outers, named);
    InnerDownUnknown(ehcs, k + 1, outers);
    var a, c := Reversed(StmtsOf(named)), InnerDown(ehcs, k + 1);
    SpeltInParts(ss, a, c, outers);
    SourcesReversed(StmtsOf(named));
    SourcesAt(c);
    SourcesAt(Filter(ss, UnknownTo(outers)));
    if a + c == a + Filter(ss, UnknownTo(outers)) {
      SameSplit(a, c, a, Filter(ss, UnknownTo(outers)));
    }
  }
}
