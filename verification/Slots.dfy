/** Mask slots: how they are numbered, and the guarded lines of the cleanup block. */
module Slots {
  import opened MaskWord
  import opened Tree
  import opened Blocks

  /** An undo statement found in the body itself, with the statements it undoes and its textual duplicates. */
  datatype Outer = Outer(stmt: Stmt, pairs: seq<Stmt>, id: bv64, duplicates: seq<Stmt>, indexes: seq<nat>)

  /** One guarded line of the cleanup block. */
  datatype Line = Line(id: bv64, undo: Stmt)

  function CountInner(firsts: seq<NewStmt>): nat {
    if firsts == [] then 0 else (if firsts[0].isOuter then 0 else 1) + CountInner(firsts[1..])
  }

  function CountSlots(ehcs: seq<EHC>): nat {
    if ehcs == [] then 0 else CountInner(ehcs[0].firsts) + CountSlots(ehcs[1..])
  }

  /** Gives the statements that are not outer ones the slots k, k+1, ... */
  function NumberFirsts(firsts: seq<NewStmt>, k: nat): seq<NewStmt> {
    if firsts == [] then []
    else if firsts[0].isOuter then [firsts[0]] + NumberFirsts(firsts[1..], k)
    else [firsts[0].(id := SlotId(k))] + NumberFirsts(firsts[1..], k + 1)
  }

  function NumberBlocks(ehcs: seq<EHC>, k: nat): seq<EHC> {
    if ehcs == [] then []
    else
      [ehcs[0].(firsts := NumberFirsts(ehcs[0].firsts, k))]
      + NumberBlocks(ehcs[1..], k + CountInner(ehcs[0].firsts))
  }

  function NumberOuters(outers: seq<Outer>, k: nat): seq<Outer> {
    if outers == [] then [] else [outers[0].(id := SlotId(k))] + NumberOuters(outers[1..], k + 1)
  }

  function BlockLines(firsts: seq<NewStmt>): seq<Line> {
    if firsts == [] then []
    else (if firsts[0].isOuter then [] else [Line(firsts[0].id, firsts[0].stmt)]) + BlockLines(firsts[1..])
  }

  /** Each block is put in front of the blocks before it. */
  function InnerLines(ehcs: seq<EHC>): seq<Line> {
    if ehcs == [] then [] else InnerLines(ehcs[1..]) + BlockLines(ehcs[0].firsts)
  }

  function OuterLines(outers: seq<Outer>): seq<Line> {
    if outers == [] then [] else OuterLines(outers[1..]) + [Line(outers[0].id, outers[0].stmt)]
  }

  function CleanupLines(ehcs: seq<EHC>, outers: seq<Outer>): seq<Line> {
    OuterLines(outers) + InnerLines(ehcs)
  }

  /** The undo statements that run when the cleanup block is entered with a mask. */
  function RanUnder(lines: seq<Line>, mask: bv64): seq<Stmt> {
    if lines == [] then []
    else (if CheckBit(mask, lines[0].id) then [lines[0].undo] else []) + RanUnder(lines[1..], mask)
  }

  /** The outers whose bits the mask holds, when the first of them has slot k. */
  function Awake(outers: seq<Outer>, k: nat, mask: bv64): seq<Outer> {
    if outers == [] then []
    else (if CheckBit(mask, SlotId(k)) then [outers[0]] else []) + Awake(outers[1..], k + 1, mask)
  }

  lemma {:induction false} RanAppend(a: seq<Line>, b: seq<Line>, mask: bv64)
    ensures RanUnder(a + b, mask) == RanUnder(a, mask) + RanUnder(b, mask)
  {
    hide CheckBit;
    if a == [] {
      assert a + b == b;
    } else {
      assert (a + b)[1..] == a[1..] + b;
      RanAppend(a[1..], b, mask);
    }
  }
}
