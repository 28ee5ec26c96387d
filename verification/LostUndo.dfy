/** A function that the generator instruments, and a fault after which its lock is never released. */
module LostUndo {
  import opened Basics
  import opened MaskWord
  import opened Tree
  import opened Blocks
  import opened Slots
  import opened Outers
  import opened Jumps
  import R = Runtime
  import opened Unwinding
  import opened Stamps
  import opened Passes
  import opened ErrorPaths
  import opened Pass2

  /** `int x;` */
  function Declare(): Stmt {
    Stmt(1, Decl, "int x", "int x", false, true, 10, 11, 2, 2, false, [])
  }

  function LockCall(): Stmt {
    Stmt(2, Call("mutex_lock", ["&m"], ["&m"]), "mutex_lock(&m)", "mutex_lock(&m)", false,
         true, 20, 21, 3, 3, false, [])
  }

  function UnlockCall(): Stmt {
    Stmt(3, Call("mutex_unlock", ["&m"], ["&m"]), "mutex_unlock(&m)", "mutex_unlock(&m)", false,
         true, 30, 31, 4, 4, false, [])
  }

  function LeakyBody(): Stmt {
    Stmt(0, Compound(1), "{}", "{}", false, false, 0, 40, 1, 5, false, [Declare(), LockCall(), UnlockCall()])
  }

  const UNDO_FNS: seq<string> := ["kfree", "kzfree"]

  /** The database has no part in this function. */
  function NoChoice(): Outer -> seq<Stmt> {
    (o: Outer) => []
  }

  /** The one outer of the function. */
  function Unlocking(): Outer {
    Outer(UnlockCall(), [LockCall()], 0, [], [])
  }

  lemma LeafUnique(s: Stmt)
    requires s.kids == []
    ensures Unique([s]) && Ids([s]) == {s.id}
  {
    assert [s][1..] == [];
  }

  lemma LeakyIsUnique()
    ensures Unique([LeakyBody()])
  {
    hide Declare, LockCall, UnlockCall;
    var d, l, u := Declare(), LockCall(), UnlockCall();
    LeakyFacts();
    var kids := [d, l, u];
    LeafUnique(d);
    LeafUnique(l);
    LeafUnique(u);
    assert kids[1..][1..] == [u] && kids[1..][0] == l && kids[0] == d;
    assert [u][1..] == [];
    assert Unique(kids[1..]) && Ids(kids[1..]) == {2, 3};
    assert Unique(kids) && Ids(kids) == {1, 2, 3};
    assert [LeakyBody()][1..] == [];
  }

  lemma LeakyFacts()
    ensures LeakyBody().kids == [Declare(), LockCall(), UnlockCall()]
    ensures forall s :: s in LeakyBody().kids ==> s.kids == [] && s.text != "" && !s.macro && s.semi && !s.foreign
    ensures Declare().id == 1 && LockCall().id == 2 && UnlockCall().id == 3
    ensures Declare().at == 11 && LockCall().at == 21 && UnlockCall().at == 31
  {
  }

  lemma LeakyBelow()
    ensures Below(LeakyBody()) == [Declare(), LockCall(), UnlockCall()]
    ensures InMain(LeakyBody().kids) == [Declare(), LockCall(), UnlockCall()]
  {
    hide Declare, LockCall, UnlockCall;
    var d, l, u := Declare(), LockCall(), UnlockCall();
    LeakyFacts();
    var kids := [d, l, u];
    assert kids[1..] == [l, u] && [l, u][1..] == [u] && [u][1..] == [];
    assert Flatten([u]) == [u];
    assert Flatten([l, u]) == [l, u];
    assert InMain([u]) == [u];
    assert InMain([l, u]) == [l, u];
  }

  /** The path to each of the statements. */
  lemma LeakyPath(i: nat)
    requires i < 3
    ensures Path([LeakyBody()], LeakyBody().kids[i].id) == [LeakyBody(), LeakyBody().kids[i]]
  {
    var kids := LeakyBody().kids;
    assert kids[1..][1..] == [kids[2]] && [kids[2]][1..] == [];
  }

  lemma LeakyPlaces()
    ensures JumpsIn(LeakyBody()) == [LockCall(), UnlockCall()] && Opens(LeakyBody().kids) == []
    ensures Ends(JumpsIn(LeakyBody())) == [21, 31]
  {
    var body := LeakyBody();
    var d, l, u := Declare(), LockCall(), UnlockCall();
    LeakyBelow();
    LeakyPath(0);
    LeakyPath(1);
    LeakyPath(2);
    assert Forbids(body)(d) && !Forbids(body)(l) && !Forbids(body)(u);
    var ss := [d, l, u];
    assert ss[1..] == [l, u] && [l, u][1..] == [u] && [u][1..] == [];
    assert Filter([u], IsPlace(body)) == [u] && Filter([u], Forbids(body)) == [];
    assert Filter([l, u], IsPlace(body)) == [l, u] && Filter([l, u], Forbids(body)) == [];
    assert Filter(ss, IsPlace(body)) == [l, u] && Filter(ss, Forbids(body)) == [d];
    LeakySurvivors();
    LeakyOpens();
    assert [l, u][1..] == [u] && Ends([u]) == [31];
  }

  lemma LeakySurvivors()
    ensures Survivors([LockCall(), UnlockCall()], [Declare()], 0) == [LockCall(), UnlockCall()]
  {
    var ps, fs := [LockCall(), UnlockCall()], [Declare()];
    assert Survives(ps, fs, 0) && Survives(ps, fs, 1);
    assert Survivors(ps, fs, 2) == [];
    assert Survivors(ps, fs, 1) == [UnlockCall()];
  }

  lemma NoBrace(s: Stmt, rest: seq<Stmt>)
    requires s.kids == [] && !s.kind.Compound?
    ensures Opens([s] + rest) == Opens(rest)
  {
    assert ([s] + rest)[1..] == rest;
  }

  lemma LeakyOpens()
    ensures Opens(LeakyBody().kids) == []
  {
    var d, l, u := Declare(), LockCall(), UnlockCall();
    NoBrace(d, [l, u]);
    NoBrace(l, [u]);
    NoBrace(u, []);
    assert [d] + [l, u] == LeakyBody().kids && [l] + [u] == [l, u] && [u] + [] == [u];
  }

  lemma LeakyOuters()
    ensures WithPairs(Merge(OutersIn(LeakyBody().kids, UNDO_FNS, LeakyBody())), LeakyBody(), NoChoice())
            == [Unlocking()]
  {
    var body := LeakyBody();
    var d, l, u := Declare(), LockCall(), UnlockCall();
    LeakyBelow();
    var p := IsOuterUndo(UNDO_FNS, body);
    assert !p(d) && p(u);
    assert !p(l) by {
      assert |"mutex_lock"| == 10 && |"kfree"| == 5 && |"kzfree"| == 6;
    }
    var ss := [d, l, u];
    assert ss[1..] == [l, u] && [l, u][1..] == [u] && [u][1..] == [];
    assert Filter([u], p) == [u] && Filter([l, u], p) == [u] && Filter(ss, p) == [u];
    var o := AsOuter(u, UNDO_FNS);
    assert o == Outer(u, [], 0, [], []);
    assert AsOuters([u], UNDO_FNS) == [o];
    assert [o][1..] == [];
    assert Merge([o]) == [o];
    LeakyPairs();
    assert PairsFor(o, body, NoChoice()) == [LockCall()] && [] + [LockCall()] == [LockCall()];
  }

  /** The search finds the lock that the unlock releases. */
  lemma LeakyPairs()
    ensures Matches(LeakyBody().kids, UnlockCall()) == [LockCall()]
  {
    var d, l, u := Declare(), LockCall(), UnlockCall();
    var ss := [d, l, u];
    assert ss[1..] == [l, u] && [l, u][1..] == [u] && [u][1..] == [];
    assert !IsPair(u, d) && IsPair(u, l);
    assert !IsPair(u, u) by {
      assert |"mutex_lock"| == 10 && |"mutex_unlock"| == 12;
    }
    assert Matches([u], u) == [] && [l] + [] == [l];
    assert Matches([l, u], u) == [l] && Matches(d.kids, u) == [];
    assert Matches(ss, u) == [] + [l];
  }

  lemma LeakyPlan()
    ensures PlanOf([], [Unlocking()], LeakyBody()) == Plan([Slot([21], [31], 3)], [0])
  {
    var body := LeakyBody();
    LeakyPath(1);
    LeakyPath(2);
    var l, u, o := LockCall(), UnlockCall(), Unlocking();
    LeakyStamp(l, 1);
    LeakyStamp(u, 2);
    assert [l][1..] == [] && [u] + [] == [u] && [u][1..] == [];
    assert Locs([l], body) == [21] && UndoLocs(o, body) == [31];
    assert [o][1..] == [] && OuterSlots([o], body) == [Slot([21], [31], 3)];
    assert OuterOrder(1, 0) == [0];
  }

  lemma LeakyStamp(s: Stmt, i: nat)
    requires 0 < i < 3 && s == LeakyBody().kids[i]
    ensures StampLoc(s, LeakyBody()) == Some(s.at)
  {
    LeakyPath(i);
    var body := LeakyBody();
    assert [body, s][..1] == [body];
    assert Nearest(s, body) == None;
  }

  // ----- the run -----

  function LeakyRun(edits: map<nat, seq<R.Item>>, cleanup: seq<R.Guard>): R.Res {
    var P := [R.Fn(EmitBody(LeakyBody(), edits, map[]), false, cleanup)];
    R.Call(P, R.Env(false, 0), 0, R.State(false, 0, []), [R.Fault(11), R.Done])
  }

  lemma LeakyCode(edits: map<nat, seq<R.Item>>)
    ensures EmitBody(LeakyBody(), edits, map[]) ==
            R.Seq(R.Stmt(11, None, Behind(edits, 11)), R.Seq(R.Stmt(21, None, Behind(edits, 21)),
                  R.Seq(R.Stmt(31, None, Behind(edits, 31)), R.Seq(R.Cleanup, R.Skip))))
  {
    hide Behind;
    var d, l, u := Declare(), LockCall(), UnlockCall();
    var kids := LeakyBody().kids;
    assert kids[1..] == [l, u] && [l, u][1..] == [u] && [u][1..] == [];
    LeakyLast(kids);
    assert Emit(d, edits, map[]) == R.Stmt(11, None, Behind(edits, 11)) by { LeafCode(d, edits); }
    assert Emit(l, edits, map[]) == R.Stmt(21, None, Behind(edits, 21)) by { LeafCode(l, edits); }
    assert Emit(u, edits, map[]) == R.Stmt(31, None, Behind(edits, 31)) by { LeafCode(u, edits); }
    hide Emit;
    assert EmitTop([], 0, edits, map[]) == R.Seq(R.Cleanup, R.Skip);
    assert EmitTop([u], 1, edits, map[]) == R.Seq(Emit(u, edits, map[]), R.Seq(R.Cleanup, R.Skip));
    assert EmitTop([l, u], 2, edits, map[]) == R.Seq(Emit(l, edits, map[]), EmitTop([u], 1, edits, map[]));
    assert EmitTop(kids, 3, edits, map[]) == R.Seq(Emit(d, edits, map[]), EmitTop([l, u], 2, edits, map[]));
  }

  lemma LeakyLast(kids: seq<Stmt>)
    requires kids == LeakyBody().kids
    ensures CleanupPlace(kids) == 3
  {
    PlaceInside(kids);
    assert forall i :: 0 <= i < 3 ==> !kids[i].kind.Return?;
  }

  lemma LeafCode(s: Stmt, edits: map<nat, seq<R.Item>>)
    requires s.kids == [] && (s.kind.Decl? || s.kind.Call?)
    ensures Emit(s, edits, map[]) == R.Stmt(s.at, None, Behind(edits, s.at))
  {
    Gotos.NoCallee([s] + Below(s));
  }

  lemma NoStampAt11()
    ensures StampsFrom([Slot([21], [31], 3)], 0, 11) == []
  {
    hide SlotId;
    var slots := [Slot([21], [31], 3)];
    assert [21][1..] == [] && [31][1..] == [];
    assert StampsFrom(slots, 1, 11) == [];
  }

  /** The fault at the declaration is noticed behind the lock call, in front of its stamp. */
  lemma LeakyTrace(edits: map<nat, seq<R.Item>>, cleanup: seq<R.Guard>, plan: Plan)
    requires plan == Plan([Slot([21], [31], 3)], [0])
    requires EditsConform(edits, plan.slots) && JumpsAt(edits, [21, 31])
    requires cleanup == GuardsOf(plan, plan.order)
    ensures var r := LeakyRun(edits, cleanup);
            r.out.Unwinding? && r.st.trace == [R.Enter(0), R.Faulted(false), R.Did(21), R.Unwound(0)]
  {
    LeakyCode(edits);
    NoStampAt11();
    assert ItemsConform(Behind(edits, 11), plan.slots, 11);
    assert !R.HasJump(Behind(edits, 11)) && R.HasJump(Behind(edits, 21));
    assert Behind(edits, 11) == [];
    LeakySteps(Behind(edits, 21), Behind(edits, 31), cleanup);
  }

  lemma LeakySteps(items: seq<R.Item>, more: seq<R.Item>, cleanup: seq<R.Guard>)
    requires R.HasJump(items) && cleanup == GuardsOf(Plan([Slot([21], [31], 3)], [0]), [0])
    ensures var c := R.Seq(R.Stmt(11, None, []), R.Seq(R.Stmt(21, None, items),
                           R.Seq(R.Stmt(31, None, more), R.Seq(R.Cleanup, R.Skip))));
            var P := [R.Fn(c, false, cleanup)];
            var r := R.Call(P, R.Env(false, 0), 0, R.State(false, 0, []), [R.Fault(11), R.Done]);
            r.out.Unwinding? && r.st.trace == [R.Enter(0), R.Faulted(false), R.Did(21), R.Unwound(0)]
  {
    var tail := R.Seq(R.Stmt(31, None, more), R.Seq(R.Cleanup, R.Skip));
    var c1 := R.Seq(R.Stmt(21, None, items), tail);
    var c := R.Seq(R.Stmt(11, None, []), c1);
    var P, env := [R.Fn(c, false, cleanup)], R.Env(false, 0);
    var ev := [R.Fault(11), R.Done];
    assert ev[1..] == [R.Done] && [R.Done][1..] == [];
    var st0 := R.State(false, 0, [R.Enter(0)]);
    var st1 := R.State(true, 0, [R.Enter(0), R.Faulted(false)]);
    var st2 := R.State(true, 0, [R.Enter(0), R.Faulted(false), R.Did(21)]);
    assert [] + [R.Enter(0)] == [R.Enter(0)];
    assert R.Exec(P, env, R.Stmt(11, None, []), st0, ev) == R.Res(R.Normal, st1, [R.Done]);
    assert R.Exec(P, env, R.Stmt(21, None, items), st1, [R.Done]) == R.Res(R.ToCleanup, st2, []);
    assert R.Exec(P, env, c1, st1, [R.Done]) == R.Res(R.ToCleanup, st2, []);
    assert R.Exec(P, env, c, st0, ev) == R.Res(R.ToCleanup, st2, []);
    assert R.RunBody(P, env, 0, c, st0, ev) == R.Res(R.ToCleanup, st2, []);
    NothingRuns(st2.(hf := false), cleanup);
  }

  lemma NothingRuns(st: R.State, cleanup: seq<R.Guard>)
    requires st.mask == 0 && cleanup == GuardsOf(Plan([Slot([21], [31], 3)], [0]), [0])
    ensures R.RunGuards(cleanup, st) == st
  {
    var plan := Plan([Slot([21], [31], 3)], [0]);
    assert [0][1..] == [] && GuardsOf(plan, []) == [];
    assert cleanup == [R.Guard(SlotId(0), 3)] && cleanup[1..] == [];
    assert !CheckBit(0, SlotId(0));
  }

  /** Through the generator: every statement with a stamp gets its jump, and yet a fault at the declaration, which
      gets none, loses an undo. The lock is taken, the jump behind the call comes in front of its stamp, and the cleanup
      block does not release it. */
  method MissingJumpLosesAnUndo() returns (edits: map<nat, seq<R.Item>>, cleanup: seq<R.Guard>, ghost plan: Plan)
    ensures FnConforms(R.Fn(EmitBody(LeakyBody(), edits, map[]), false, cleanup), plan)
    ensures |plan.slots| == 1
    ensures forall at :: at in plan.slots[0].pairs + plan.slots[0].undos ==> R.HasJump(Behind(edits, at))
    ensures var r := LeakyRun(edits, cleanup);
            r.out.Unwinding? && r.st.trace == [R.Enter(0), R.Faulted(false), R.Did(LockCall().at), R.Unwound(0)]
    ensures Outstanding(plan.slots[0], [LockCall().at])
  {
    hide Unique, JumpsAt, EditsConform, FnConforms, EmitBody, LeakyRun, JumpsIn, Opens, Ends, OutersIn, Merge,
         WithPairs;
    hide Settled, DistinctSources, AllAlike, BuiltBlocks, CleanupLines, NumberBlocks, NumberOuters, CountSlots, PlanOf;
    hide LeakyBody, AllResolvable, Below, Outstanding;
    LeakyNeeds();
    var function_ := new Function(LeakyBody());
    var rw := new Rewriter();
    function_.Analyse([], UNDO_FNS, NoChoice());
    NothingBuiltHere(function_.ehcs);
    LeakyOuters();
    var lines;
    lines, plan := function_.Emplace(rw);
    edits, cleanup := rw.edits, CleanupOf(lines);
    LeakyEnds(edits, lines, plan);
  }

  lemma LeakyNeeds()
    ensures Unique([LeakyBody()]) && AllResolvable([], LeakyBody())
    ensures forall s :: s in Below(LeakyBody()) ==> s.text != ""
  {
    LeakyIsUnique();
    LeakyFacts();
    LeakyBelow();
  }

  lemma NothingBuiltHere(ehcs: seq<EHC>)
    requires AllResolvable([], LeakyBody()) && AllAlike(BuiltBlocks([], LeakyBody(), UNDO_FNS), ehcs)
    ensures ehcs == []
  {
    NothingBuilt(LeakyBody(), UNDO_FNS);
  }

  lemma LeakyEnds(edits: map<nat, seq<R.Item>>, lines: Option<seq<Line>>, plan: Plan)
    requires plan == PlanOf([], [Unlocking()], LeakyBody()) && EditsConform(edits, plan.slots)
    requires JumpsAt(edits, Opens(LeakyBody().kids) + Ends(JumpsIn(LeakyBody())))
    requires lines == None <==> Opens(LeakyBody().kids) == [] && JumpsIn(LeakyBody()) == []
    requires lines.Some? ==>
               lines.value == CleanupLines(NumberBlocks([], 0), NumberOuters([Unlocking()], CountSlots([])))
    ensures FnConforms(R.Fn(EmitBody(LeakyBody(), edits, map[]), false, CleanupOf(lines)), plan)
    ensures |plan.slots| == 1 && plan.slots[0].pairs == [21] && plan.slots[0].undos == [31]
    ensures R.HasJump(Behind(edits, 21)) && R.HasJump(Behind(edits, 31))
    ensures var r := LeakyRun(edits, CleanupOf(lines));
            r.out.Unwinding? && r.st.trace == [R.Enter(0), R.Faulted(false), R.Did(21), R.Unwound(0)]
    ensures Outstanding(plan.slots[0], [21]) && LockCall().at == 21
  {
    hide EditsConform, FnConforms, EmitBody, LeakyRun, JumpsIn, Opens, Ends, CleanupLines, PlanOf;
    LeakyPlaces();
    LeakyPlan();
    LeakyFacts();
    assert [] + [21, 31] == [21, 31];
    PlanSlots([], [Unlocking()], LeakyBody());
    GeneratedConforms(LeakyBody(), edits, map[], [], [Unlocking()], lines);
    CleanupBySlot([], [Unlocking()], LeakyBody());
    LeakyTrace(edits, CleanupOf(lines), plan);
    LeakyJumps(edits);
    assert [21][..0] == [];
  }

  lemma LeakyJumps(edits: map<nat, seq<R.Item>>)
    requires JumpsAt(edits, [21, 31])
    ensures R.HasJump(Behind(edits, 21)) && R.HasJump(Behind(edits, 31))
  {
  }
}
