/** The stamps behind statements, the slots they speak of, and the code of the function they are inserted into. */
module Stamps {
  import opened Basics
  import opened MaskWord
  import opened Tree
  import opened Blocks
  import opened Slots
  import opened Jumps
  import opened Runtime
  import opened Unwinding

  // ----- where a stamp goes -----

  function Nearest(s: Stmt, body: Stmt): Option<Stmt> {
    var p := Path([body], s.id);
    if p == [] then None else ClimbOn(p[..|p|-1], body.begin)
  }

  /** The body of a conditional: the then-branch, or what a loop repeats. */
  function BodyOf(s: Stmt): Option<Stmt> {
    if s.kind.IfStmt? then if |s.kids| >= 2 then Some(s.kids[1]) else None
    else if s.kids != [] then Some(s.kids[|s.kids|-1]) else None
  }

  /** Behind the statement; for a statement inside a condition, behind the brace that opens the guarded body. */
  function StampLoc(s: Stmt, body: Stmt): Option<nat> {
    var parent := Nearest(s, body);
    if InParentCondition(s, parent) then
      match BodyOf(parent.value)
      case Some(b) => if b.kind.Compound? then Some(b.kind.open) else None
      case None => None
    else if IsConditional(s) then None
    else Some(s.at)
  }

  function Locs(ss: seq<Stmt>, body: Stmt): seq<nat> {
    if ss == [] then []
    else (match StampLoc(ss[0], body) case Some(a) => [a] case None => []) + Locs(ss[1..], body)
  }

  function LocsOf(s: Option<Stmt>, body: Stmt): seq<nat> {
    match s
    case Some(t) => Locs([t], body)
    case None => []
  }

  /** The stamps of new statements at a location, in the order of insertion. */
  function FirstStamps(firsts: seq<NewStmt>, body: Stmt, at: nat): seq<Item> {
    if firsts == [] then []
    else
      (if firsts[0].isOuter then [] else Hits(LocsOf(firsts[0].pair, body), at, SetStamp(firsts[0].id)))
      + FirstStamps(firsts[1..], body, at)
  }

  function InnerStamps(ehcs: seq<EHC>, body: Stmt, at: nat): seq<Item> {
    if ehcs == [] then [] else FirstStamps(ehcs[0].firsts, body, at) + InnerStamps(ehcs[1..], body, at)
  }

  function UndoLocs(o: Outer, body: Stmt): seq<nat> {
    Locs([o.stmt] + o.duplicates, body)
  }

  function OuterStamps(outers: seq<Outer>, body: Stmt, at: nat): seq<Item> {
    if outers == [] then []
    else
      Hits(UndoLocs(outers[0], body), at, UnsetStamp(outers[0].id))
      + Hits(Locs(outers[0].pairs, body), at, SetStamp(outers[0].id))
      + OuterStamps(outers[1..], body, at)
  }

  // ----- the slots -----

  function FirstSlotsOf(firsts: seq<NewStmt>, body: Stmt): seq<Slot> {
    if firsts == [] then []
    else
      (if firsts[0].isOuter then [] else [Slot(LocsOf(firsts[0].pair, body), [], firsts[0].stmt.id)])
      + FirstSlotsOf(firsts[1..], body)
  }

  function InnerSlots(ehcs: seq<EHC>, body: Stmt): seq<Slot> {
    if ehcs == [] then [] else FirstSlotsOf(ehcs[0].firsts, body) + InnerSlots(ehcs[1..], body)
  }

  function OuterSlots(outers: seq<Outer>, body: Stmt): seq<Slot> {
    if outers == [] then []
    else [Slot(Locs(outers[0].pairs, body), UndoLocs(outers[0], body), outers[0].stmt.id)]
         + OuterSlots(outers[1..], body)
  }

  function SlotsOf(ehcs: seq<EHC>, outers: seq<Outer>, body: Stmt): seq<Slot> {
    InnerSlots(ehcs, body) + OuterSlots(outers, body)
  }

  lemma {:induction false} FirstSlotsCount(firsts: seq<NewStmt>, body: Stmt)
    ensures |FirstSlotsOf(firsts, body)| == CountInner(firsts)
  {
    if firsts != [] {
      FirstSlotsCount(firsts[1..], body);
    }
  }

  lemma {:induction false} InnerSlotsCount(ehcs: seq<EHC>, body: Stmt)
    ensures |InnerSlots(ehcs, body)| == CountSlots(ehcs)
  {
    if ehcs != [] {
      FirstSlotsCount(ehcs[0].firsts, body);
      InnerSlotsCount(ehcs[1..], body);
    }
  }

  // ----- stamps by statement are stamps by slot -----

  /** The stamps at a location for the slots of a list that starts with slot k. */
  function ListStamps(slots: seq<Slot>, k: nat, at: nat): seq<Item> {
    if slots == [] then []
    else
      Hits(slots[0].undos, at, UnsetStamp(SlotId(k))) + Hits(slots[0].pairs, at, SetStamp(SlotId(k)))
      + ListStamps(slots[1..], k + 1, at)
  }

  lemma {:induction false} ListStampsAppend(a: seq<Slot>, b: seq<Slot>, k: nat, at: nat)
    ensures ListStamps(a + b, k, at) == ListStamps(a, k, at) + ListStamps(b, k + |a|, at)
  {
    hide SlotId, Hits;
    if a == [] {
      assert a + b == b;
    } else {
      assert (a + b)[1..] == a[1..] + b;
      ListStampsAppend(a[1..], b, k + 1, at);
    }
  }

  lemma {:induction false} ListStampsFrom(slots: seq<Slot>, k: nat, at: nat)
    requires k <= |slots|
    ensures ListStamps(slots[k..], k, at) == StampsFrom(slots, k, at)
    decreases |slots| - k
  {
    hide SlotId, Hits;
    if k < |slots| {
      ListStampsFrom(slots, k + 1, at);
      assert slots[k..][1..] == slots[k + 1..];
    }
  }

  lemma {:induction false} FirstStampsBySlot(firsts: seq<NewStmt>, k: nat, body: Stmt, at: nat)
    ensures FirstStamps(NumberFirsts(firsts, k), body, at) == ListStamps(FirstSlotsOf(firsts, body), k, at)
  {
    hide SlotId, LocsOf;
    if firsts != [] {
      var f, slots := firsts[0], FirstSlotsOf(firsts[1..], body);
      if f.isOuter {
        FirstStampsBySlot(firsts[1..], k, body, at);
        assert ([f] + NumberFirsts(firsts[1..], k))[1..] == NumberFirsts(firsts[1..], k);
        assert FirstSlotsOf(firsts, body) == slots;
      } else {
        FirstStampsBySlot(firsts[1..], k + 1, body, at);
        var f', slot := f.(id := SlotId(k)), Slot(LocsOf(f.pair, body), [], f.stmt.id);
        assert ([f'] + NumberFirsts(firsts[1..], k + 1))[1..] == NumberFirsts(firsts[1..], k + 1);
        assert ([slot] + slots)[1..] == slots;
        assert Hits([], at, UnsetStamp(SlotId(k))) == [];
      }
    }
  }

  lemma InnerStampsCons(e: EHC, rest: seq<EHC>, body: Stmt, at: nat)
    ensures InnerStamps([e] + rest, body, at) == FirstStamps(e.firsts, body, at) + InnerStamps(rest, body, at)
  {
    assert ([e] + rest)[1..] == rest;
  }

  lemma {:induction false} InnerStampsBySlot(ehcs: seq<EHC>, k: nat, body: Stmt, at: nat)
    ensures InnerStamps(NumberBlocks(ehcs, k), body, at) == ListStamps(InnerSlots(ehcs, body), k, at)
  {
    hide SlotId, FirstStamps, FirstSlotsOf, Hits, NumberFirsts;
    if ehcs != [] {
      hide ListStamps;
      var c := CountInner(ehcs[0].firsts);
      FirstSlotsCount(ehcs[0].firsts, body);
      FirstStampsBySlot(ehcs[0].firsts, k, body, at);
      InnerStampsBySlot(ehcs[1..], k + c, body, at);
      ListStampsAppend(FirstSlotsOf(ehcs[0].firsts, body), InnerSlots(ehcs[1..], body), k, at);
      InnerStampsCons(ehcs[0].(firsts := NumberFirsts(ehcs[0].firsts, k)), NumberBlocks(ehcs[1..], k + c), body, at);
    }
  }

  lemma {:induction false} OuterStampsBySlot(outers: seq<Outer>, k: nat, body: Stmt, at: nat)
    ensures OuterStamps(NumberOuters(outers, k), body, at) == ListStamps(OuterSlots(outers, body), k, at)
  {
    hide SlotId, Locs;
    if outers != [] {
      OuterStampsBySlot(outers[1..], k + 1, body, at);
      var o := outers[0].(id := SlotId(k));
      assert ([o] + NumberOuters(outers[1..], k + 1))[1..] == NumberOuters(outers[1..], k + 1);
      var slot := Slot(Locs(outers[0].pairs, body), UndoLocs(outers[0], body), outers[0].stmt.id);
      assert ([slot] + OuterSlots(outers[1..], body))[1..] == OuterSlots(outers[1..], body);
    }
  }

  /** The stamps inserted at a location, statement by statement, are those the slots ask for, slot by slot. */
  lemma StampsBySlot(ehcs: seq<EHC>, outers: seq<Outer>, body: Stmt, at: nat)
    ensures InnerStamps(NumberBlocks(ehcs, 0), body, at) + OuterStamps(NumberOuters(outers, CountSlots(ehcs)), body, at)
            == StampsFrom(SlotsOf(ehcs, outers, body), 0, at)
  {
    hide SlotId, Hits, ListStamps;
    InnerStampsBySlot(ehcs, 0, body, at);
    OuterStampsBySlot(outers, CountSlots(ehcs), body, at);
    InnerSlotsCount(ehcs, body);
    ListStampsAppend(InnerSlots(ehcs, body), OuterSlots(outers, body), 0, at);
    var slots := SlotsOf(ehcs, outers, body);
    assert slots[0..] == slots;
    ListStampsFrom(slots, 0, at);
  }

  // ----- the cleanup block by slot -----

  function FirstOrder(firsts: seq<NewStmt>, k: nat): seq<nat> {
    if firsts == [] then []
    else if firsts[0].isOuter then FirstOrder(firsts[1..], k)
    else [k] + FirstOrder(firsts[1..], k + 1)
  }

  function InnerOrder(ehcs: seq<EHC>, k: nat): seq<nat> {
    if ehcs == [] then []
    else InnerOrder(ehcs[1..], k + CountInner(ehcs[0].firsts)) + FirstOrder(ehcs[0].firsts, k)
  }

  function OuterOrder(n: nat, k: nat): seq<nat> {
    if n == 0 then [] else OuterOrder(n - 1, k + 1) + [k]
  }

  /** The slot numbers in the order of the lines of the cleanup block. */
  function OrderOf(ehcs: seq<EHC>, outers: seq<Outer>): seq<nat> {
    OuterOrder(|outers|, CountSlots(ehcs)) + InnerOrder(ehcs, 0)
  }

  /** Each of the numbers from lo up to hi occurs in the list, once, and no other number. */
  ghost predicate Lists(order: seq<nat>, lo: nat, hi: nat) {
    && (forall k: nat :: k in order <==> lo <= k < hi)
    && forall i, j :: 0 <= i < j < |order| ==> order[i] != order[j]
  }

  lemma ListsJoin(a: seq<nat>, b: seq<nat>, lo: nat, mid: nat, hi: nat)
    requires lo <= mid <= hi && Lists(a, mid, hi) && Lists(b, lo, mid)
    ensures Lists(a + b, lo, hi)
  {
    forall i, j | 0 <= i < j < |a + b| ensures (a + b)[i] != (a + b)[j] {
      if i < |a| <= j {
        assert a[i] in a && b[j - |a|] in b;
      }
    }
  }

  lemma ListsOne(k: nat)
    ensures Lists([k], k, k + 1)
  {
  }

  lemma {:induction false} FirstOrderLists(firsts: seq<NewStmt>, k: nat)
    ensures Lists(FirstOrder(firsts, k), k, k + CountInner(firsts))
  {
    if firsts != [] {
      if firsts[0].isOuter {
        FirstOrderLists(firsts[1..], k);
      } else {
        FirstOrderLists(firsts[1..], k + 1);
        var rest := FirstOrder(firsts[1..], k + 1);
        forall i, j | 0 <= i < j < |[k] + rest| ensures ([k] + rest)[i] != ([k] + rest)[j] {
          if i == 0 {
            assert rest[j - 1] in rest;
          }
        }
      }
    }
  }

  lemma {:induction false} InnerOrderLists(ehcs: seq<EHC>, k: nat)
    ensures Lists(InnerOrder(ehcs, k), k, k + CountSlots(ehcs))
  {
    if ehcs != [] {
      var c := CountInner(ehcs[0].firsts);
      FirstOrderLists(ehcs[0].firsts, k);
      InnerOrderLists(ehcs[1..], k + c);
      ListsJoin(InnerOrder(ehcs[1..], k + c), FirstOrder(ehcs[0].firsts, k), k, k + c, k + CountSlots(ehcs));
    }
  }

  lemma {:induction false} OuterOrderLists(n: nat, k: nat)
    ensures Lists(OuterOrder(n, k), k, k + n)
  {
    if n > 0 {
      OuterOrderLists(n - 1, k + 1);
      ListsOne(k);
      ListsJoin(OuterOrder(n - 1, k + 1), [k], k, k + 1, k + n);
    }
  }

  /** The cleanup block has one line for every slot. */
  lemma OrderListsAll(ehcs: seq<EHC>, outers: seq<Outer>)
    ensures Lists(OrderOf(ehcs, outers), 0, CountSlots(ehcs) + |outers|)
  {
    InnerOrderLists(ehcs, 0);
    OuterOrderLists(|outers|, CountSlots(ehcs));
    ListsJoin(OuterOrder(|outers|, CountSlots(ehcs)), InnerOrder(ehcs, 0), 0, CountSlots(ehcs),
              CountSlots(ehcs) + |outers|);
  }

  function AsGuards(lines: seq<Line>): seq<Guard> {
    if lines == [] then [] else [Guard(lines[0].id, lines[0].undo.id)] + AsGuards(lines[1..])
  }

  lemma {:induction false} AsGuardsAppend(a: seq<Line>, b: seq<Line>)
    ensures AsGuards(a + b) == AsGuards(a) + AsGuards(b)
  {
    if a == [] {
      assert a + b == b;
    } else {
      assert (a + b)[1..] == a[1..] + b;
      AsGuardsAppend(a[1..], b);
    }
  }

  lemma {:induction false} GuardsAppend(plan: Plan, a: seq<nat>, b: seq<nat>)
    requires AllBelow(a, |plan.slots|) && AllBelow(b, |plan.slots|)
    ensures AllBelow(a + b, |plan.slots|) && GuardsOf(plan, a + b) == GuardsOf(plan, a) + GuardsOf(plan, b)
  {
    hide SlotId;
    if a == [] {
      assert a + b == b;
    } else {
      assert (a + b)[1..] == a[1..] + b;
      GuardsAppend(plan, a[1..], b);
    }
  }

  /** The slots of the plan from number k on begin with the given list. */
  predicate PlanHas(plan: Plan, k: nat, slots: seq<Slot>) {
    k + |slots| <= |plan.slots| && plan.slots[k..k + |slots|] == slots
  }

  lemma {:induction false} FirstGuards(firsts: seq<NewStmt>, k: nat, body: Stmt, plan: Plan)
    requires PlanHas(plan, k, FirstSlotsOf(firsts, body))
    ensures AllBelow(FirstOrder(firsts, k), |plan.slots|)
    ensures AsGuards(BlockLines(NumberFirsts(firsts, k))) == GuardsOf(plan, FirstOrder(firsts, k))
  {
    hide SlotId, LocsOf;
    if firsts != [] {
      var f, slots := firsts[0], FirstSlotsOf(firsts[1..], body);
      if f.isOuter {
        assert FirstSlotsOf(firsts, body) == slots;
        FirstGuards(firsts[1..], k, body, plan);
        assert ([f] + NumberFirsts(firsts[1..], k))[1..] == NumberFirsts(firsts[1..], k);
        assert BlockLines(NumberFirsts(firsts, k)) == BlockLines(NumberFirsts(firsts[1..], k));
      } else {
        var all := FirstSlotsOf(firsts, body);
        assert all[1..] == slots;
        assert plan.slots[k] == plan.slots[k..k + |all|][0] == all[0];
        assert plan.slots[k + 1..k + 1 + |slots|] == plan.slots[k..k + |all|][1..];
        FirstGuards(firsts[1..], k + 1, body, plan);
        var f', rest := f.(id := SlotId(k)), NumberFirsts(firsts[1..], k + 1);
        assert ([f'] + rest)[1..] == rest;
        var order := FirstOrder(firsts[1..], k + 1);
        assert ([k] + order)[1..] == order;
        var line := Line(SlotId(k), f.stmt);
        assert BlockLines([f'] + rest) == [line] + BlockLines(rest);
        assert ([line] + BlockLines(rest))[1..] == BlockLines(rest);
      }
    }
  }

  lemma PlanParts(plan: Plan, k: nat, a: seq<Slot>, b: seq<Slot>)
    requires PlanHas(plan, k, a + b)
    ensures PlanHas(plan, k, a) && PlanHas(plan, k + |a|, b)
  {
    var all := plan.slots[k..k + |a + b|];
    assert plan.slots[k..k + |a|] == all[..|a|] == a;
    assert plan.slots[k + |a|..k + |a| + |b|] == all[|a|..] == b;
  }

  lemma {:induction false} InnerGuards(ehcs: seq<EHC>, k: nat, body: Stmt, plan: Plan)
    requires PlanHas(plan, k, InnerSlots(ehcs, body))
    ensures AllBelow(InnerOrder(ehcs, k), |plan.slots|)
    ensures AsGuards(InnerLines(NumberBlocks(ehcs, k))) == GuardsOf(plan, InnerOrder(ehcs, k))
  {
    hide SlotId, FirstSlotsOf, BlockLines, FirstOrder, NumberFirsts, PlanHas;
    if ehcs != [] {
      hide AsGuards, GuardsOf;
      var c := CountInner(ehcs[0].firsts);
      var here, more := FirstSlotsOf(ehcs[0].firsts, body), InnerSlots(ehcs[1..], body);
      FirstSlotsCount(ehcs[0].firsts, body);
      PlanParts(plan, k, here, more);
      FirstGuards(ehcs[0].firsts, k, body, plan);
      InnerGuards(ehcs[1..], k + c, body, plan);
      var e, rest := ehcs[0].(firsts := NumberFirsts(ehcs[0].firsts, k)), NumberBlocks(ehcs[1..], k + c);
      assert ([e] + rest)[1..] == rest;
      AsGuardsAppend(InnerLines(rest), BlockLines(e.firsts));
      GuardsAppend(plan, InnerOrder(ehcs[1..], k + c), FirstOrder(ehcs[0].firsts, k));
    }
  }

  lemma {:induction false} OuterGuards(outers: seq<Outer>, k: nat, body: Stmt, plan: Plan)
    requires PlanHas(plan, k, OuterSlots(outers, body))
    ensures AllBelow(OuterOrder(|outers|, k), |plan.slots|)
    ensures AsGuards(OuterLines(NumberOuters(outers, k))) == GuardsOf(plan, OuterOrder(|outers|, k))
  {
    hide SlotId, Locs;
    if outers != [] {
      var all, more := OuterSlots(outers, body), OuterSlots(outers[1..], body);
      assert all[1..] == more;
      assert plan.slots[k] == plan.slots[k..k + |all|][0] == all[0];
      assert plan.slots[k + 1..k + 1 + |more|] == plan.slots[k..k + |all|][1..];
      OuterGuards(outers[1..], k + 1, body, plan);
      var o, rest := outers[0].(id := SlotId(k)), NumberOuters(outers[1..], k + 1);
      assert ([o] + rest)[1..] == rest;
      var line := Line(SlotId(k), o.stmt);
      AsGuardsAppend(OuterLines(rest), [line]);
      assert AsGuards([line]) == [Guard(SlotId(k), o.stmt.id)] by { assert [line][1..] == []; }
      assert GuardsOf(plan, [k]) == [Guard(SlotId(k), o.stmt.id)] by { assert [k][1..] == []; }
      GuardsAppend(plan, OuterOrder(|outers| - 1, k + 1), [k]);
    }
  }

  function PlanOf(ehcs: seq<EHC>, outers: seq<Outer>, body: Stmt): Plan {
    Plan(SlotsOf(ehcs, outers, body), OrderOf(ehcs, outers))
  }

  /** The emitted cleanup lines are the guarded undos of the slots, in the plan's order. */
  lemma CleanupBySlot(ehcs: seq<EHC>, outers: seq<Outer>, body: Stmt)
    ensures var plan := PlanOf(ehcs, outers, body);
            && AllBelow(plan.order, |plan.slots|)
            && AsGuards(CleanupLines(NumberBlocks(ehcs, 0), NumberOuters(outers, CountSlots(ehcs))))
               == GuardsOf(plan, plan.order)
  {
    hide SlotId, InnerSlots, OuterSlots, InnerLines, OuterLines, InnerOrder, OuterOrder, GuardsOf, AsGuards;
    var plan, n := PlanOf(ehcs, outers, body), CountSlots(ehcs);
    var inner, outer := InnerSlots(ehcs, body), OuterSlots(outers, body);
    InnerSlotsCount(ehcs, body);
    assert plan.slots[0..0 + |inner|] == inner;
    assert plan.slots[n..n + |outer|] == outer;
    InnerGuards(ehcs, 0, body, plan);
    OuterGuards(outers, n, body, plan);
    AsGuardsAppend(OuterLines(NumberOuters(outers, n)), InnerLines(NumberBlocks(ehcs, 0)));
    GuardsAppend(plan, OuterOrder(|outers|, n), InnerOrder(ehcs, 0));
  }

  // ----- the code of the function -----

  /** The first call of an instrumented function in a statement. */
  function FirstCallee(ss: seq<Stmt>, callees: map<string, nat>): Option<nat> {
    if ss == [] then None
    else if ss[0].kind.Call? && ss[0].kind.fn in callees then Some(callees[ss[0].kind.fn])
    else FirstCallee(ss[1..], callees)
  }

  /** The statement tree as code, with the inserted text in place. `callees` numbers the instrumented functions.
      Branches and loop bodies are taken to stand in braces, as the first pass leaves them: behind the only statement
      of a branch without braces, inserted text would stand outside the branch. */
  function Emit(s: Stmt, edits: map<nat, seq<Item>>, callees: map<string, nat>): Code
    decreases s, 1
  {
    match s.kind
    case Compound(open) => Block(open, Behind(edits, open), EmitAll(s.kids, edits, callees))
    case IfStmt(_) =>
      if |s.kids| < 2 then Code.Skip
      else
        var no := if |s.kids| > 2 then Emit(s.kids[2], edits, callees) else Code.Skip;
        If(s.id, Emit(s.kids[1], edits, callees), no)
    case ForStmt(_) => if s.kids == [] then Code.Skip else While(s.id, Emit(s.kids[|s.kids|-1], edits, callees))
    case WhileStmt(_) => if s.kids == [] then Code.Skip else While(s.id, Emit(s.kids[|s.kids|-1], edits, callees))
    case Return(_) => Code.Return(s.id)
    case Goto(target) => Code.Goto(target)
    case Labelled => Seq(Code.Label(s.id), EmitAll(s.kids, edits, callees))
    case Break => Code.Break
    case Continue => Code.Continue
    case _ => Code.Stmt(s.at, FirstCallee([s] + Below(s), callees), Behind(edits, s.at))
  }

  function EmitAll(ss: seq<Stmt>, edits: map<nat, seq<Item>>, callees: map<string, nat>): Code
    decreases ss, 0
  {
    if ss == [] then Code.Skip else Seq(Emit(ss[0], edits, callees), EmitAll(ss[1..], edits, callees))
  }

  /** The cleanup block stands before the last return among the top-level statements, or at the end. */
  function CleanupPlace(kids: seq<Stmt>): nat {
    if kids == [] then 0
    else if kids[|kids|-1].kind.Return? then |kids| - 1
    else var k := CleanupPlace(kids[..|kids|-1]); if k < |kids| - 1 then k else |kids|
  }

  lemma {:induction false} PlaceInside(kids: seq<Stmt>)
    ensures CleanupPlace(kids) <= |kids|
    ensures CleanupPlace(kids) < |kids| <==> exists i :: 0 <= i < |kids| && kids[i].kind.Return?
    ensures CleanupPlace(kids) < |kids| ==> kids[CleanupPlace(kids)].kind.Return?
    ensures forall i :: CleanupPlace(kids) < i < |kids| ==> !kids[i].kind.Return?
  {
    if kids != [] && !kids[|kids|-1].kind.Return? {
      PlaceInside(kids[..|kids|-1]);
    }
  }

  /** The statements with the cleanup block in front of statement k. */
  function EmitTop(kids: seq<Stmt>, k: nat, edits: map<nat, seq<Item>>, callees: map<string, nat>): Code {
    if kids == [] || k == 0 then Seq(Code.Cleanup, EmitAll(kids, edits, callees))
    else Seq(Emit(kids[0], edits, callees), EmitTop(kids[1..], k - 1, edits, callees))
  }

  function EmitBody(body: Stmt, edits: map<nat, seq<Item>>, callees: map<string, nat>): Code {
    EmitTop(body.kids, CleanupPlace(body.kids), edits, callees)
  }

  ghost predicate EditsConform(edits: map<nat, seq<Item>>, slots: seq<Slot>) {
    forall at: nat :: ItemsConform(Behind(edits, at), slots, at)
  }

  lemma {:induction false} EmitConforms(s: Stmt, edits: map<nat, seq<Item>>, callees: map<string, nat>,
          slots: seq<Slot>)
    requires EditsConform(edits, slots)
    ensures CodeConforms(Emit(s, edits, callees), slots)
    decreases s, 1
  {
    hide ItemsConform;
    match s.kind
    case Compound(_) => EmitAllConforms(s.kids, edits, callees, slots);
    case Labelled => EmitAllConforms(s.kids, edits, callees, slots);
    case IfStmt(_) =>
      if |s.kids| >= 2 {
        EmitConforms(s.kids[1], edits, callees, slots);
        if |s.kids| > 2 {
          EmitConforms(s.kids[2], edits, callees, slots);
        }
      }
    case ForStmt(_) => if s.kids != [] { EmitConforms(s.kids[|s.kids|-1], edits, callees, slots); }
    case WhileStmt(_) => if s.kids != [] { EmitConforms(s.kids[|s.kids|-1], edits, callees, slots); }
    case _ =>
  }

  lemma {:induction false} EmitAllConforms(ss: seq<Stmt>, edits: map<nat, seq<Item>>, callees: map<string, nat>,
                                           slots: seq<Slot>)
    requires EditsConform(edits, slots)
    ensures CodeConforms(EmitAll(ss, edits, callees), slots)
    decreases ss, 0
  {
    if ss != [] {
      EmitConforms(ss[0], edits, callees, slots);
      EmitAllConforms(ss[1..], edits, callees, slots);
    }
  }
}
