/** Where a function saves its callee-saved registers, as read off its disassembly. */
module Prologue {
  import opened Basics
  import opened Sequences

  /** A line of the disassembly: a push with its operand, or anything else. */
  datatype Line = Push(reg: string) | Text

  /** The offset that stands for "not saved". */
  const NOT_SAVED := 100

  /** The order in which the scan expects the registers; 0 for every other operand. */
  function Rank(reg: string): (r: nat)
    ensures r <= 5
  {
    if reg == "%r15" then 1
    else if reg == "%r14" then 2
    else if reg == "%r13" then 3
    else if reg == "%r12" then 4
    else if reg == "%rbx" then 5
    else 0
  }

  function Pushes(lines: seq<Line>): seq<string> {
    if lines == [] then []
    else Pushes(lines[..|lines|-1]) + match lines[|lines|-1] case Push(r) => [r] case Text => []
  }

  /** The pushes behind the first push of the frame pointer. */
  function InFrame(pushes: seq<string>): Option<seq<string>> {
    if pushes == [] then None
    else
      var last := pushes[|pushes|-1];
      match InFrame(pushes[..|pushes|-1])
      case Some(a) => Some(a + [last])
      case None => if last == "%rbp" then Some([]) else None
  }

  /** The pushes that the scan records: those that outrank what it recorded before. */
  function Recorded(pushes: seq<string>): seq<string> {
    if pushes == [] then []
    else
      var recs, last := Recorded(pushes[..|pushes|-1]), pushes[|pushes|-1];
      if Rank(last) > Top(recs) then recs + [last] else recs
  }

  function Top(recs: seq<string>): nat {
    if recs == [] then 0 else Rank(recs[|recs|-1])
  }

  function Saved(lines: seq<Line>): seq<string> {
    match InFrame(Pushes(lines))
    case None => []
    case Some(pushes) => Recorded(pushes)
  }

  /** Position k of the recorded registers lies 8(k + 1) bytes below the frame pointer. */
  function OffsetOf(recs: seq<string>, reg: string): int {
    if recs == [] then NOT_SAVED
    else if recs[|recs|-1] == reg then -8 * |recs|
    else OffsetOf(recs[..|recs|-1], reg)
  }

  // ----- the scan -----

  datatype State = Reset | Rbp | R15 | R14 | R13 | R12 | Rbx

  function RankOf(s: State): nat {
    match s
    case Reset => 0
    case Rbp => 0
    case R15 => 1
    case R14 => 2
    case R13 => 3
    case R12 => 4
    case Rbx => 5
  }

  lemma RecordedSnoc(pushes: seq<string>, reg: string)
    ensures var recs := Recorded(pushes);
            Recorded(pushes + [reg]) == if Rank(reg) > Top(recs) then recs + [reg] else recs
  {
    assert (pushes + [reg])[..|pushes|] == pushes;
  }

  lemma FrameSnoc(pushes: seq<string>, reg: string)
    ensures InFrame(pushes + [reg]) ==
            match InFrame(pushes)
            case Some(a) => Some(a + [reg])
            case None => if reg == "%rbp" then Some([]) else None
  {
    assert (pushes + [reg])[..|pushes|] == pushes;
  }

  lemma {:induction false} TopIsLast(pushes: seq<string>)
    ensures forall i :: 0 <= i < |Recorded(pushes)| ==> 0 < Rank(Recorded(pushes)[i]) <= Top(Recorded(pushes))
    ensures forall i, j :: 0 <= i < j < |Recorded(pushes)| ==> Rank(Recorded(pushes)[i]) < Rank(Recorded(pushes)[j])
  {
    if pushes != [] {
      TopIsLast(pushes[..|pushes|-1]);
    }
  }

  lemma {:induction false} PushesAppend(a: seq<Line>, b: seq<Line>)
    ensures Pushes(a + b) == Pushes(a) + Pushes(b)
    decreases |b|
  {
    if b == [] {
      assert a + b == a;
    } else {
      assert (a + b)[..|a + b| - 1] == a + b[..|b|-1];
      PushesAppend(a, b[..|b|-1]);
    }
  }

  lemma {:induction false} FrameAppend(a: seq<string>, b: seq<string>)
    requires InFrame(a).Some?
    ensures InFrame(a + b) == Some(InFrame(a).value + b)
    decreases |b|
  {
    if b == [] {
      assert a + b == a && InFrame(a).value + b == InFrame(a).value;
    } else {
      var init, last := b[..|b|-1], b[|b|-1];
      assert a + b == a + init + [last];
      FrameAppend(a, init);
      FrameSnoc(a + init, last);
      assert InFrame(a).value + b == InFrame(a).value + init + [last];
    }
  }

  /** The registers a scan that breaks off at state Rbx would still have found: none. */
  lemma BreakIsSafe(lines: seq<Line>, n: nat)
    requires n <= |lines| && InFrame(Pushes(lines[..n])).Some?
    requires Top(Recorded(InFrame(Pushes(lines[..n])).value)) == 5
    ensures Saved(lines) == Saved(lines[..n])
  {
    assert lines == lines[..n] + lines[n..];
    PushesAppend(lines[..n], lines[n..]);
    FrameAppend(Pushes(lines[..n]), Pushes(lines[n..]));
    LowerRecordsNothing(InFrame(Pushes(lines[..n])).value, Pushes(lines[n..]));
  }

  class FuncClass {
    var rbx: int
    var r12: int
    var r13: int
    var r14: int
    var r15: int

    constructor ()
      ensures rbx == r12 == r13 == r14 == r15 == NOT_SAVED
    {
      rbx, r12, r13, r14, r15 := NOT_SAVED, NOT_SAVED, NOT_SAVED, NOT_SAVED, NOT_SAVED;
    }

    ghost predicate Holds(recs: seq<string>)
      reads this
    {
      && r15 == OffsetOf(recs, "%r15") && r14 == OffsetOf(recs, "%r14") && r13 == OffsetOf(recs, "%r13")
      && r12 == OffsetOf(recs, "%r12") && rbx == OffsetOf(recs, "%rbx")
    }

    /** One push, in a state that has recorded recs. */
    method Step(state0: State, offset0: int, reg: string, ghost recs: seq<string>) returns (state: State, offset: int)
      requires state0 != Rbx && state0 != Reset
      requires Top(recs) == RankOf(state0) && offset0 == -8 * (|recs| + 1) && Holds(recs)
      requires forall i :: 0 <= i < |recs| ==> Rank(recs[i]) <= RankOf(state0)
      modifies this
      ensures var recs' := if Rank(reg) > Top(recs) then recs + [reg] else recs;
              Top(recs') == RankOf(state) && state != Reset && offset == -8 * (|recs'| + 1) && Holds(recs')
    {
      ghost var recs' := recs + [reg];
      assert recs'[..|recs|] == recs;
      state, offset := state0, offset0;
      if state == Rbp {
        if reg == "%r15" {
          r15, state, offset := offset, R15, offset - 8;
        }
        if reg == "%r14" {
          r14, state, offset := offset, R14, offset - 8;
        }
        if reg == "%r13" {
          r13, state, offset := offset, R13, offset - 8;
        }
        if reg == "%r12" {
          r12, state, offset := offset, R12, offset - 8;
        }
        if reg == "%rbx" {
          rbx, state, offset := offset, Rbx, offset - 8;
        }
      }
      if state == R15 {
        if reg == "%r14" {
          r14, state, offset := offset, R14, offset - 8;
        }
        if reg == "%r13" {
          r13, state, offset := offset, R13, offset - 8;
        }
        if reg == "%r12" {
          r12, state, offset := offset, R12, offset - 8;
        }
        if reg == "%rbx" {
          rbx, state, offset := offset, Rbx, offset - 8;
        }
      }
      if state == R14 {
        if reg == "%r13" {
          r13, state, offset := offset, R13, offset - 8;
        }
        if reg == "%r12" {
          r12, state, offset := offset, R12, offset - 8;
        }
        if reg == "%rbx" {
          rbx, state, offset := offset, Rbx, offset - 8;
        }
      }
      if state == R13 {
        if reg == "%r12" {
          r12, state, offset := offset, R12, offset - 8;
        }
        if reg == "%rbx" {
          rbx, state, offset := offset, Rbx, offset - 8;
        }
      }
      if state == R12 {
        if reg == "%rbx" {
          rbx, state, offset := offset, Rbx, offset - 8;
        }
      }
    }

    /** The scan over the lines of a function. */
    method FindSaved(lines: seq<Line>, baseLine: nat, endLine: nat)
      requires baseLine <= endLine <= |lines|
      requires Holds([])
      modifies this
      ensures Holds(Saved(lines[baseLine..endLine]))
    {
      hide Recorded, Pushes, InFrame, OffsetOf, Top, Rank;
      ghost var body := lines[baseLine..endLine];
      var state, offset := Reset, 0;
      var ln := baseLine;
      NothingPushed();
      assert body[..0] == [];
      while ln < endLine
        invariant baseLine <= ln <= endLine
        invariant var frame := InFrame(Pushes(body[..ln - baseLine]));
                  if frame == None then state == Reset && offset == 0 && Holds([])
                  else state != Reset && Top(Recorded(frame.value)) == RankOf(state)
                       && offset == -8 * (|Recorded(frame.value)| + 1) && Holds(Recorded(frame.value))
      {
        ghost var before := Pushes(body[..ln - baseLine]);
        assert body[ln - baseLine] == lines[ln];
        assert body[..ln - baseLine + 1] == body[..ln - baseLine] + [body[ln - baseLine]];
        PushesSnoc(body[..ln - baseLine], body[ln - baseLine]);
        if lines[ln].Push? {
          var reg := lines[ln].reg;
          if state == Rbx {
            BreakIsSafe(body, ln - baseLine);
            break;
          }
          FrameSnoc(before, reg);
          if state == Reset {
            if reg == "%rbp" {
              state, offset := Rbp, offset - 8;
              NothingPushed();
            }
          } else {
            ghost var frame := InFrame(before).value;
            RecordedSnoc(frame, reg);
            TopIsLast(frame);
            state, offset := Step(state, offset, reg, Recorded(frame));
          }
        }
        ln := ln + 1;
      }
      assert body[..endLine - baseLine] == body;
      if state == Reset {
        rbx, r15, r14, r13, r12 := NOT_SAVED, NOT_SAVED, NOT_SAVED, NOT_SAVED, NOT_SAVED;
        NothingPushed();
      }
    }
  }

  lemma NothingPushed()
    ensures Pushes([]) == [] && InFrame([]) == None && Recorded([]) == [] && Top([]) == 0
    ensures forall r :: OffsetOf([], r) == NOT_SAVED
  {
  }

  lemma PushesSnoc(lines: seq<Line>, l: Line)
    ensures Pushes(lines + [l]) == if l.Push? then Pushes(lines) + [l.reg] else Pushes(lines)
  {
    assert (lines + [l])[..|lines|] == lines;
  }

  // ----- what the offsets mean on the stack -----

  /** The stack pointer and the memory below it; a cell holds the name of the register whose value it keeps. */
  datatype Stack = Stack(sp: int, cells: map<int, string>)

  function Run(pushes: seq<string>, st: Stack): Stack {
    if pushes == [] then st
    else
      var s := Run(pushes[..|pushes|-1], st);
      Stack(s.sp - 8, s.cells[s.sp - 8 := pushes[|pushes|-1]])
  }

  predicate Keeps(st: Stack, at: int, reg: string) {
    at in st.cells && st.cells[at] == reg
  }

  /** The n-th push behind the frame pointer's stands 8n bytes below it. */
  lemma {:induction false} CellOf(pushes: seq<string>, st: Stack, i: nat)
    ensures Run(pushes, st).sp == st.sp - 8 * |pushes|
    ensures i < |pushes| ==> Keeps(Run(pushes, st), st.sp - 8 * (i + 1), pushes[i])
  {
    if pushes != [] {
      CellOf(pushes[..|pushes|-1], st, i);
    }
  }

  /** The recorded registers stand in the order of their ranks, each once, so there are at most five; the recorded
      offsets are -8, -16, ... in that order, and every other register is marked as not saved. */
  lemma RecordedOffsets(pushes: seq<string>)
    ensures var recs := Recorded(pushes);
            && |recs| <= 5
            && (forall i, j :: 0 <= i < j < |recs| ==> Rank(recs[i]) < Rank(recs[j]))
            && (forall i :: 0 <= i < |recs| ==> OffsetOf(recs, recs[i]) == -8 * (i + 1))
            && (forall r :: r !in recs ==> OffsetOf(recs, r) == 100)
            && Within(recs, ["%r15", "%r14", "%r13", "%r12", "%rbx"])
  {
    var recs := Recorded(pushes);
    TopIsLast(pushes);
    forall i | 0 <= i < |recs| ensures OffsetOf(recs, recs[i]) == -8 * (i + 1) {
      OffsetAt(recs, i);
    }
    forall r | r !in recs ensures OffsetOf(recs, r) == NOT_SAVED {
      OffsetNone(recs, r);
    }
    RanksBound(recs, |recs|);
    RecordedAreKnown(pushes);
    assert KnownFrom(0) == ["%r15", "%r14", "%r13", "%r12", "%rbx"];
    RisingWithin(recs, 0);
  }

  /** The registers that the scan knows, in its order, from one on. */
  function KnownFrom(n: nat): seq<string>
    requires n <= 5
  {
    ["%r15", "%r14", "%r13", "%r12", "%rbx"][n..]
  }

  lemma {:induction false} RecordedAreKnown(pushes: seq<string>)
    ensures forall r :: r in Recorded(pushes) ==> Rank(r) > 0
  {
    hide Rank;
    if pushes != [] {
      RecordedAreKnown(pushes[..|pushes|-1]);
    }
  }

  lemma RankIsPlace(r: string)
    ensures Rank(r) > 0 ==> ["%r15", "%r14", "%r13", "%r12", "%rbx"][Rank(r) - 1] == r
  {
  }

  lemma {:induction false} RisingWithin(recs: seq<string>, n: nat)
    requires n <= 5 && forall i, j :: 0 <= i < j < |recs| ==> Rank(recs[i]) < Rank(recs[j])
    requires forall i :: 0 <= i < |recs| ==> Rank(recs[i]) > n
    ensures Within(recs, KnownFrom(n))
    decreases 5 - n
  {
    hide Rank;
    if recs != [] {
      RankIsPlace(recs[0]);
      assert KnownFrom(n)[1..] == KnownFrom(n + 1);
      assert KnownFrom(n)[0] == ["%r15", "%r14", "%r13", "%r12", "%rbx"][n];
      if Rank(recs[0]) == n + 1 {
        RisingWithin(recs[1..], n + 1);
      } else {
        RisingWithin(recs, n + 1);
        if recs[0] == KnownFrom(n)[0] {
          PlaceIsRank(n);
        }
      }
    }
  }

  lemma PlaceIsRank(n: nat)
    requires n < 5
    ensures Rank(["%r15", "%r14", "%r13", "%r12", "%rbx"][n]) == n + 1
  {
    assert "%r15"[3] == '5' && "%r14"[3] == '4' && "%r13"[3] == '3' && "%r12"[3] == '2' && "%rbx"[3] == 'x';
  }

  /** Registers in the order that the scan knows have rising ranks. */
  lemma {:induction false} WithinRises(recs: seq<string>, n: nat)
    requires n <= 5 && Within(recs, KnownFrom(n))
    ensures forall i :: 0 <= i < |recs| ==> Rank(recs[i]) > n
    ensures forall i, j :: 0 <= i < j < |recs| ==> Rank(recs[i]) < Rank(recs[j])
    decreases 5 - n
  {
    hide Rank;
    if recs != [] {
      assert KnownFrom(n)[1..] == KnownFrom(n + 1);
      assert KnownFrom(n)[0] == ["%r15", "%r14", "%r13", "%r12", "%rbx"][n];
      PlaceIsRank(n);
      if recs[0] == KnownFrom(n)[0] {
        WithinRises(recs[1..], n + 1);
      } else {
        WithinRises(recs, n + 1);
      }
    }
  }

  lemma {:induction false} OffsetAt(recs: seq<string>, i: nat)
    requires i < |recs| && forall k, j :: 0 <= k < j < |recs| ==> Rank(recs[k]) < Rank(recs[j])
    ensures OffsetOf(recs, recs[i]) == -8 * (i + 1)
  {
    hide Rank;
    if i < |recs| - 1 {
      assert Rank(recs[i]) < Rank(recs[|recs|-1]);
      OffsetAt(recs[..|recs|-1], i);
    }
  }

  lemma {:induction false} OffsetNone(recs: seq<string>, r: string)
    requires r !in recs
    ensures OffsetOf(recs, r) == NOT_SAVED
  {
    if recs != [] {
      OffsetNone(recs[..|recs|-1], r);
    }
  }

  lemma {:induction false} RanksBound(recs: seq<string>, n: nat)
    requires n <= |recs|
    requires forall i :: 0 <= i < |recs| ==> Rank(recs[i]) > 0
    requires forall i, j :: 0 <= i < j < |recs| ==> Rank(recs[i]) < Rank(recs[j])
    ensures n > 0 ==> n <= Rank(recs[n - 1])
    ensures n <= 5
  {
    hide Rank;
    if n > 1 {
      RanksBound(recs, n - 1);
      assert Rank(recs[n - 2]) < Rank(recs[n - 1]);
    }
  }

  /** A push is recorded exactly when it outranks every push of the frame before it. */
  lemma {:induction false} RecordedExactly(pushes: seq<string>, i: nat)
    requires i < |pushes|
    ensures Recorded(pushes[..i + 1]) == Recorded(pushes[..i]) + [pushes[i]]
            <==> Rank(pushes[i]) > 0 && forall j :: 0 <= j < i ==> Rank(pushes[j]) < Rank(pushes[i])
  {
    hide Rank;
    var before := pushes[..i];
    assert pushes[..i + 1] == before + [pushes[i]];
    RecordedSnoc(before, pushes[i]);
    TopIsHighest(before);
    assert Recorded(before) + [pushes[i]] != Recorded(before);
    if forall j :: 0 <= j < i ==> Rank(pushes[j]) < Rank(pushes[i]) {
      if Recorded(before) != [] {
        var j :| 0 <= j < |before| && Rank(before[j]) == Top(Recorded(before));
        assert Rank(pushes[j]) < Rank(pushes[i]);
      }
    }
  }

  lemma {:induction false} TopIsHighest(pushes: seq<string>)
    ensures forall j :: 0 <= j < |pushes| ==> Rank(pushes[j]) <= Top(Recorded(pushes))
    ensures Recorded(pushes) == [] ==> Top(Recorded(pushes)) == 0
    ensures Recorded(pushes) != [] ==> exists j :: 0 <= j < |pushes| && Rank(pushes[j]) == Top(Recorded(pushes))
  {
    hide Rank;
    if pushes != [] {
      var init, last := pushes[..|pushes|-1], pushes[|pushes|-1];
      TopIsHighest(init);
      assert pushes == init + [last];
      RecordedSnoc(init, last);
      if Rank(last) > Top(Recorded(init)) {
        assert Rank(pushes[|pushes|-1]) == Top(Recorded(pushes));
      } else if Recorded(init) != [] {
        var j :| 0 <= j < |init| && Rank(init[j]) == Top(Recorded(init));
        assert Rank(pushes[j]) == Top(Recorded(pushes));
      }
    }
  }

  /** The first n pushes save registers that the scan knows, in its order, and no later push outranks them: nothing else
      comes between. */
  predicate InOrder(pushes: seq<string>) {
    exists n: nat :: n <= |pushes| && Rising(pushes[..n]) && NoneOutranks(pushes[n..], HighRank(pushes[..n]))
  }

  predicate Rising(pushes: seq<string>) {
    && (forall i :: 0 <= i < |pushes| ==> Rank(pushes[i]) > 0)
    && forall i, j :: 0 <= i < j < |pushes| ==> Rank(pushes[i]) < Rank(pushes[j])
  }

  function HighRank(pushes: seq<string>): nat {
    if pushes == [] then 0 else Rank(pushes[|pushes|-1])
  }

  predicate NoneOutranks(pushes: seq<string>, rank: nat) {
    forall j :: 0 <= j < |pushes| ==> Rank(pushes[j]) <= rank
  }

  lemma {:induction false} RisingRecords(pushes: seq<string>)
    requires Rising(pushes)
    ensures Recorded(pushes) == pushes
  {
    hide Rank, Recorded;
    if pushes == [] {
      NothingPushed();
    } else {
      var init, last := pushes[..|pushes|-1], pushes[|pushes|-1];
      RisingRecords(init);
      assert pushes == init + [last];
      RecordedSnoc(init, last);
      assert init != [] ==> init[|init|-1] == pushes[|pushes|-2] && Rank(pushes[|pushes|-2]) < Rank(last);
    }
  }

  lemma {:induction false} LowerRecordsNothing(pushes: seq<string>, more: seq<string>)
    requires NoneOutranks(more, Top(Recorded(pushes)))
    ensures Recorded(pushes + more) == Recorded(pushes)
    decreases |more|
  {
    hide Rank, Recorded;
    if more == [] {
      assert pushes + more == pushes;
    } else {
      var init, last := more[..|more|-1], more[|more|-1];
      assert pushes + more == pushes + init + [last];
      LowerRecordsNothing(pushes, init);
      RecordedSnoc(pushes + init, last);
    }
  }

  /** The recorded pushes are the first pushes of the frame exactly when the pushes are in order. */
  lemma InOrderMeans(pushes: seq<string>)
    ensures InOrder(pushes) <==> Recorded(pushes) <= pushes
  {
    hide Rank, Recorded, Rising, NoneOutranks, HighRank;
    var recs := Recorded(pushes);
    if InOrder(pushes) {
      var n: nat :| n <= |pushes| && Rising(pushes[..n]) && NoneOutranks(pushes[n..], HighRank(pushes[..n]));
      FirstAreRecorded(pushes[..n], pushes[n..]);
      assert pushes == pushes[..n] + pushes[n..];
    }
    if recs <= pushes {
      RecordedFirst(pushes, |recs|);
    }
  }

  lemma FirstAreRecorded(a: seq<string>, b: seq<string>)
    requires Rising(a) && NoneOutranks(b, HighRank(a))
    ensures Recorded(a + b) == a
  {
    hide Rank, Recorded;
    RisingRecords(a);
    LowerRecordsNothing(a, b);
  }

  lemma RecordedFirst(pushes: seq<string>, n: nat)
    requires n <= |pushes| && Recorded(pushes) == pushes[..n]
    ensures InOrder(pushes)
  {
    hide Rank, Recorded;
    TopIsLast(pushes);
    TopIsHighest(pushes);
    assert Rising(pushes[..n]);
    assert HighRank(pushes[..n]) == Top(Recorded(pushes));
    forall j | 0 <= j < |pushes[n..]| ensures Rank(pushes[n..][j]) <= HighRank(pushes[..n]) {
      assert pushes[n..][j] == pushes[n + j];
    }
  }

  lemma {:induction false} RecordedFew(pushes: seq<string>)
    ensures |Recorded(pushes)| <= |pushes|
  {
    if pushes != [] {
      RecordedFew(pushes[..|pushes|-1]);
    }
  }

  /** Every recorded offset, taken from the frame pointer, addresses the cell that keeps that register if and only if
      the pushes are in order: no other push comes before one that is recorded. */
  lemma OffsetsAddressTheCells(pushes: seq<string>, st: Stack)
    ensures (forall r :: r in Recorded(pushes) ==> Keeps(Run(pushes, st), st.sp + OffsetOf(Recorded(pushes), r), r))
            <==> InOrder(pushes)
  {
    hide Recorded, OffsetOf, Run, Rank, InOrder;
    var recs := Recorded(pushes);
    InOrderMeans(pushes);
    RecordedFew(pushes);
    RecordedOffsets(pushes);
    if InOrder(pushes) {
      forall r | r in recs ensures Keeps(Run(pushes, st), st.sp + OffsetOf(recs, r), r) {
        var i :| 0 <= i < |recs| && recs[i] == r;
        CellOf(pushes, st, i);
      }
    } else {
      var i :| 0 <= i < |recs| && recs[i] != pushes[i];
      assert recs[i] in recs;
      CellOf(pushes, st, i);
    }
  }

  /** The frame begins behind the first push of the frame pointer. */
  lemma {:induction false} FrameIs(pushes: seq<string>, i: nat)
    requires i < |pushes| && pushes[i] == "%rbp" && forall j :: 0 <= j < i ==> pushes[j] != "%rbp"
    ensures InFrame(pushes) == Some(pushes[i + 1..])
    decreases |pushes|
  {
    var before := pushes[..|pushes|-1];
    if i < |pushes| - 1 {
      FrameIs(before, i);
      assert before[i + 1..] + [pushes[|pushes|-1]] == pushes[i + 1..];
    } else {
      NoFrame(before);
      assert pushes[i + 1..] == [];
    }
  }

  /** A prologue that saves these registers only, in the order of the scan, is recorded whole and in order. */
  lemma PlainPrologue(pushes: seq<string>)
    requires Within(pushes, ["%r15", "%r14", "%r13", "%r12", "%rbx"])
    ensures Recorded(pushes) == pushes && InOrder(pushes)
  {
    hide Recorded, InOrder, Rank;
    assert KnownFrom(0) == ["%r15", "%r14", "%r13", "%r12", "%rbx"];
    WithinRises(pushes, 0);
    RisingRecords(pushes);
    InOrderMeans(pushes);
  }

  /** A push of another register in between, and the scan gives the place of the wrong one. */
  lemma StrayPushMisplaces()
    ensures var pushes := ["%r10", "%rbx"]; Recorded(pushes) == ["%rbx"] && !InOrder(pushes)
  {
    var pushes := ["%r10", "%rbx"];
    assert pushes[..1] == ["%r10"] && pushes[..1][..0] == [];
    assert Recorded(["%r10"]) == [];
    InOrderMeans(pushes);
  }

  /** Without a push of the frame pointer nothing counts as saved. */
  lemma {:induction false} NoFrame(pushes: seq<string>)
    ensures InFrame(pushes) == None <==> "%rbp" !in pushes
  {
    if pushes != [] {
      var init, last := pushes[..|pushes|-1], pushes[|pushes|-1];
      NoFrame(init);
      assert pushes == init + [last];
    }
  }
}
