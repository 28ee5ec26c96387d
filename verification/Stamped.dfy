/** Which statements of the body carry the stamps of which slot, read off the lists of the generator. */
module Stamped {
  import opened Basics
  import opened MaskWord
  import opened Tree
  import opened Blocks
  import opened Slots
  import opened Jumps
  import opened Runtime
  import opened Unwinding
  import opened Stamps
  import opened Passes
  import opened Outers
  import opened UndoOrder
  import opened Collected

  /** Slot `slot` is cleared behind every statement that `undoes` tells, and behind no other; the text says so, too. */
  ghost predicate ClearedBy(slot: Slot, id: bv64, undoers: seq<Tree.Stmt>, body: Tree.Stmt,
                            edits: map<nat, seq<Item>>)
  {
    && (forall s, a: nat :: s in undoers && StampLoc(s, body) == Some(a) ==>
          a in slot.undos && UnsetStamp(id) in Behind(edits, a))
    && forall a: nat :: a in slot.undos ==> exists s :: s in undoers && StampLoc(s, body) == Some(a)
  }

  /** It is set behind every one of the pairs, and behind no other statement. */
  ghost predicate SetBy(slot: Slot, id: bv64, pairs: seq<Tree.Stmt>, body: Tree.Stmt, edits: map<nat, seq<Item>>) {
    && (forall s, a: nat :: s in pairs && StampLoc(s, body) == Some(a) ==>
          a in slot.pairs && SetStamp(id) in Behind(edits, a))
    && forall a: nat :: a in slot.pairs ==> exists s :: s in pairs && StampLoc(s, body) == Some(a)
  }

  /** Each outer owns a slot behind those of the blocks. Its statement and all its duplicates clear it, its pairs
      set it, and its statement is the undo that the cleanup block runs. */
  ghost predicate OutersStamped(plan: Plan, edits: map<nat, seq<Item>>, ehcs: seq<EHC>, outers: seq<Outer>,
                                body: Tree.Stmt) {
    var n := CountSlots(ehcs);
    && |plan.slots| == n + |outers|
    && forall i: nat :: i < |outers| ==>
         var o, slot := outers[i], plan.slots[n + i];
         && o.id == SlotId(n + i) && slot.undo == o.stmt.id
         && ClearedBy(slot, o.id, [o.stmt] + o.duplicates, body, edits) && SetBy(slot, o.id, o.pairs, body, edits)
  }

  /** The number of the slot that new statement i of block b owns, if it is not marked as outer. */
  function SlotNumber(ehcs: seq<EHC>, b: nat, i: nat): nat
    requires b < |ehcs| && i < |ehcs[b].firsts|
  {
    CountSlots(ehcs[..b]) + CountInner(ehcs[b].firsts[..i])
  }

  function PairOf(f: NewStmt): seq<Tree.Stmt> {
    match f.pair
    case Some(p) => [p]
    case None => []
  }

  /** Each new statement that is not marked as outer owns a slot. Its pair sets it, nothing clears it, and the statement
      is the undo that the cleanup block runs. */
  ghost predicate InnersStamped(plan: Plan, edits: map<nat, seq<Item>>, ehcs: seq<EHC>, body: Tree.Stmt) {
    forall b: nat, i: nat :: b < |ehcs| && i < |ehcs[b].firsts| && !ehcs[b].firsts[i].isOuter ==>
      var f, k := ehcs[b].firsts[i], SlotNumber(ehcs, b, i);
      && k < |plan.slots| && f.id == SlotId(k) && plan.slots[k].undo == f.stmt.id
      && ClearedBy(plan.slots[k], f.id, [], body, edits) && SetBy(plan.slots[k], f.id, PairOf(f), body, edits)
  }

  // ----- locations -----

  lemma {:induction false} LocsAre(ss: seq<Tree.Stmt>, body: Tree.Stmt)
    ensures forall s, a: nat :: s in ss && StampLoc(s, body) == Some(a) ==> a in Locs(ss, body)
    ensures forall a: nat :: a in Locs(ss, body) ==> exists s :: s in ss && StampLoc(s, body) == Some(a)
  {
    hide StampLoc;
    if ss != [] {
      LocsAre(ss[1..], body);
      assert ss == [ss[0]] + ss[1..];
      forall a: nat | a in Locs(ss, body) ensures exists s :: s in ss && StampLoc(s, body) == Some(a) {
        if StampLoc(ss[0], body) != Some(a) {
          assert a in Locs(ss[1..], body);
          var s :| s in ss[1..] && StampLoc(s, body) == Some(a);
          assert s in ss;
        }
      }
    }
  }

  lemma {:induction false} HitIs(locs: seq<nat>, at: nat, item: Item)
    requires at in locs
    ensures item in Hits(locs, at, item)
  {
    if locs[0] != at {
      assert locs == [locs[0]] + locs[1..];
      HitIs(locs[1..], at, item);
    }
  }

  lemma {:induction false} StampIsThere(slots: seq<Slot>, k: nat, j: nat, at: nat)
    requires k <= j < |slots|
    ensures at in slots[j].undos ==> UnsetStamp(SlotId(j)) in StampsFrom(slots, k, at)
    ensures at in slots[j].pairs ==> SetStamp(SlotId(j)) in StampsFrom(slots, k, at)
    decreases |slots| - k
  {
    hide SlotId, Hits;
    if k < j {
      StampIsThere(slots, k + 1, j, at);
    } else {
      if at in slots[j].undos {
        HitIs(slots[j].undos, at, UnsetStamp(SlotId(j)));
      }
      if at in slots[j].pairs {
        HitIs(slots[j].pairs, at, SetStamp(SlotId(j)));
      }
    }
  }

  lemma {:induction false} DropOnlyJumps(items: seq<Item>)
    ensures forall x :: x in DropJumps(items) ==> x in items
  {
    if HasJump(items) {
      DropOnlyJumps(items[1..]);
    }
  }

  lemma StampIsBehind(edits: map<nat, seq<Item>>, slots: seq<Slot>, j: nat, at: nat)
    requires EditsConform(edits, slots) && j < |slots|
    ensures at in slots[j].undos ==> UnsetStamp(SlotId(j)) in Behind(edits, at)
    ensures at in slots[j].pairs ==> SetStamp(SlotId(j)) in Behind(edits, at)
  {
    hide SlotId, StampsFrom, Behind;
    assert ItemsConform(Behind(edits, at), slots, at);
    StampIsThere(slots, 0, j, at);
    DropOnlyJumps(Behind(edits, at));
  }

  lemma SlotIsStamped(edits: map<nat, seq<Item>>, slots: seq<Slot>, j: nat, undoers: seq<Tree.Stmt>,
                      pairs: seq<Tree.Stmt>, body: Tree.Stmt)
    requires EditsConform(edits, slots) && j < |slots|
    requires slots[j].undos == Locs(undoers, body) && slots[j].pairs == Locs(pairs, body)
    ensures ClearedBy(slots[j], SlotId(j), undoers, body, edits) && SetBy(slots[j], SlotId(j), pairs, body, edits)
  {
    hide SlotId, StampLoc, Locs, Behind, EditsConform;
    LocsAre(undoers, body);
    LocsAre(pairs, body);
    forall at: nat ensures at in slots[j].undos ==> UnsetStamp(SlotId(j)) in Behind(edits, at)
                   ensures at in slots[j].pairs ==> SetStamp(SlotId(j)) in Behind(edits, at) {
      StampIsBehind(edits, slots, j, at);
    }
  }

  // ----- the slots of the lists -----

  lemma {:induction false} OuterSlotAt(outers: seq<Outer>, i: nat, body: Tree.Stmt)
    requires i < |outers|
    ensures i < |OuterSlots(outers, body)|
    ensures OuterSlots(outers, body)[i]
            == Slot(Locs(outers[i].pairs, body), Locs([outers[i].stmt] + outers[i].duplicates, body), outers[i].stmt.id)
  {
    hide Locs;
    if i > 0 {
      OuterSlotAt(outers[1..], i - 1, body);
    }
  }

  lemma {:induction false} FirstSlotAt(firsts: seq<NewStmt>, i: nat, body: Tree.Stmt)
    requires i < |firsts| && !firsts[i].isOuter
    ensures var k := CountInner(firsts[..i]);
            k < |FirstSlotsOf(firsts, body)| && FirstSlotsOf(firsts, body)[k]
            == Slot(Locs(PairOf(firsts[i]), body), [], firsts[i].stmt.id)
  {
    hide Locs;
    if i > 0 {
      FirstSlotAt(firsts[1..], i - 1, body);
      assert firsts[..i][1..] == firsts[1..][..i - 1];
    } else {
      NoLocs(body);
    }
  }

  lemma NoLocs(body: Tree.Stmt)
    ensures Locs([], body) == []
  {
  }

  lemma {:induction false} InnerSlotAt(ehcs: seq<EHC>, b: nat, i: nat, body: Tree.Stmt)
    requires b < |ehcs| && i < |ehcs[b].firsts| && !ehcs[b].firsts[i].isOuter
    ensures var k := SlotNumber(ehcs, b, i);
            k < |InnerSlots(ehcs, body)| && InnerSlots(ehcs, body)[k]
            == Slot(Locs(PairOf(ehcs[b].firsts[i]), body), [], ehcs[b].firsts[i].stmt.id)
  {
    hide Locs, FirstSlotsOf, CountInner, PairOf;
    FirstSlotsCount(ehcs[0].firsts, body);
    if b > 0 {
      InnerSlotAt(ehcs[1..], b - 1, i, body);
      assert ehcs[..b][1..] == ehcs[1..][..b - 1];
    } else {
      FirstSlotAt(ehcs[0].firsts, i, body);
    }
  }

  lemma {:induction false} FirstNumber(firsts: seq<NewStmt>, k: nat, i: nat)
    requires i < |firsts|
    ensures |NumberFirsts(firsts, k)| == |firsts|
    ensures NumberFirsts(firsts, k)[i] ==
            if firsts[i].isOuter then firsts[i] else firsts[i].(id := SlotId(k + CountInner(firsts[..i])))
    ensures CountInner(NumberFirsts(firsts, k)[..i]) == CountInner(firsts[..i])
  {
    hide SlotId;
    var n := if firsts[0].isOuter then k else k + 1;
    if i > 0 {
      FirstNumber(firsts[1..], n, i - 1);
      assert firsts[..i][1..] == firsts[1..][..i - 1];
      var numbered := NumberFirsts(firsts, k);
      assert numbered[1..] == NumberFirsts(firsts[1..], n);
      assert numbered[..i][1..] == numbered[1..][..i - 1];
    } else if |firsts| > 1 {
      FirstNumber(firsts[1..], n, 0);
    }
  }

  lemma {:induction false} BlockNumber(ehcs: seq<EHC>, k: nat, b: nat)
    requires b <= |ehcs|
    ensures |NumberBlocks(ehcs, k)| == |ehcs| && CountSlots(NumberBlocks(ehcs, k)[..b]) == CountSlots(ehcs[..b])
  {
    hide NumberFirsts, CountInner;
    if ehcs != [] {
      var c := CountInner(ehcs[0].firsts);
      NumberFirstsTwice(ehcs[0].firsts, k);
      var numbered := NumberBlocks(ehcs, k);
      assert numbered[1..] == NumberBlocks(ehcs[1..], k + c);
      if b > 0 {
        BlockNumber(ehcs[1..], k + c, b - 1);
        assert ehcs[..b][1..] == ehcs[1..][..b - 1];
        assert numbered[..b][1..] == numbered[1..][..b - 1];
      } else {
        BlockNumber(ehcs[1..], k + c, 0);
      }
    }
  }

  // ----- stamps by list -----

  lemma OutersAreStamped(plan: Plan, edits: map<nat, seq<Item>>, ehcs: seq<EHC>, outers: seq<Outer>, body: Tree.Stmt)
    requires plan == PlanOf(ehcs, outers, body) && EditsConform(edits, plan.slots)
    ensures OutersStamped(plan, edits, NumberBlocks(ehcs, 0), NumberOuters(outers, CountSlots(ehcs)), body)
  {
    hide SlotId, NumberBlocks, NumberOuters, EditsConform, ClearedBy, SetBy, InnerSlots, OuterSlots, CountSlots, Locs;
    var n, os := CountSlots(ehcs), NumberOuters(outers, CountSlots(ehcs));
    NumberBlocksTwice(ehcs, 0);
    NumberOutersAt(outers, n);
    InnerSlotsCount(ehcs, body);
    OuterSlotsCount(outers, body);
    forall i: nat | i < |os|
      ensures os[i].id == SlotId(n + i) && plan.slots[n + i].undo == os[i].stmt.id
      ensures ClearedBy(plan.slots[n + i], os[i].id, [os[i].stmt] + os[i].duplicates, body, edits)
      ensures SetBy(plan.slots[n + i], os[i].id, os[i].pairs, body, edits)
    {
      OuterSlotAt(outers, i, body);
      assert plan.slots[n + i] == OuterSlots(outers, body)[i];
      SlotIsStamped(edits, plan.slots, n + i, [os[i].stmt] + os[i].duplicates, os[i].pairs, body);
    }
  }

  /** Every undo call of the body, whichever of several with its text it is, clears the slot of the one outer that has
      its text: for every lock release outside macros, and every call outside macros of a function that the database
      knows and that needs no look at its parameters. */
  lemma EveryUndoClearsItsSlot(s: Tree.Stmt, at: nat, plan: Plan, edits: map<nat, seq<Item>>, ehcs: seq<EHC>,
                               outers: seq<Outer>, undoFns: seq<string>, body: Tree.Stmt)
    requires OutersStamped(plan, edits, ehcs, outers, body) && OutersOf(outers, undoFns, body)
    requires Unique([body]) && s in Below(body) && s.kind.Call? && StampLoc(s, body) == Some(at)
    requires !exists p :: p in Flatten([body]) && s in p.kids && s.macro && p.macro
    requires s.kind.fn in ["mutex_unlock", "spin_unlock", "spin_unlock_irqrestore"]
             || (s.kind.fn in undoFns
                 && s.kind.fn !in ["pinctrl_select_state", "msm_camera_config_vreg", "msm_camera_enable_vreg",
                                   "regulator_set_voltage", "platform_set_drvdata"])
    ensures exists i: nat :: i < |outers| && CountSlots(ehcs) + i < |plan.slots| && outers[i].stmt.source == s.source
                             && at in plan.slots[CountSlots(ehcs) + i].undos
                             && UnsetStamp(outers[i].id) in Behind(edits, at)
  {
    hide Unique, Merge, OutersIn, StampLoc, Behind, Below, CountSlots, Flatten, OutersStamped, OutersOf;
    EveryUndoIsCollected(s, undoFns, body);
    var merged := Merge(OutersIn(body.kids, undoFns, body));
    var o :| o in merged && o.stmt.source == s.source && (s == o.stmt || s in o.duplicates);
    ClearsItsSlot(s, at, o, plan, edits, ehcs, outers, undoFns, body);
  }

  lemma ClearsItsSlot(s: Tree.Stmt, at: nat, o: Outer, plan: Plan, edits: map<nat, seq<Item>>, ehcs: seq<EHC>,
                      outers: seq<Outer>, undoFns: seq<string>, body: Tree.Stmt)
    requires OutersStamped(plan, edits, ehcs, outers, body) && OutersOf(outers, undoFns, body)
    requires o in Merge(OutersIn(body.kids, undoFns, body)) && (s == o.stmt || s in o.duplicates)
    requires StampLoc(s, body) == Some(at)
    ensures exists i: nat :: i < |outers| && CountSlots(ehcs) + i < |plan.slots|
                             && outers[i].stmt.source == o.stmt.source
                             && at in plan.slots[CountSlots(ehcs) + i].undos
                             && UnsetStamp(outers[i].id) in Behind(edits, at)
  {
    hide Merge, OutersIn, StampLoc, Behind, CountSlots, OutersStamped, OutersOf;
    var i := ListedAt(o, outers, undoFns, body);
    SlotOfOuter(plan, edits, ehcs, outers, body, i);
    assert s in [outers[i].stmt] + outers[i].duplicates;
  }

  lemma ListedAt(o: Outer, outers: seq<Outer>, undoFns: seq<string>, body: Tree.Stmt) returns (i: nat)
    requires OutersOf(outers, undoFns, body) && o in Merge(OutersIn(body.kids, undoFns, body))
    ensures i < |outers| && outers[i].stmt == o.stmt && outers[i].duplicates == o.duplicates
  {
    hide Merge, OutersIn, DistinctSources;
    var merged := Merge(OutersIn(body.kids, undoFns, body));
    i :| 0 <= i < |merged| && merged[i] == o;
    StmtsAt(merged);
    StmtsAt(outers);
    assert outers[i].stmt == StmtsOf(outers)[i] == o.stmt;
  }

  lemma SlotOfOuter(plan: Plan, edits: map<nat, seq<Item>>, ehcs: seq<EHC>, outers: seq<Outer>, body: Tree.Stmt, i: nat)
    requires OutersStamped(plan, edits, ehcs, outers, body) && i < |outers|
    ensures CountSlots(ehcs) + i < |plan.slots|
    ensures ClearedBy(plan.slots[CountSlots(ehcs) + i], outers[i].id, [outers[i].stmt] + outers[i].duplicates, body,
                      edits)
  {
    hide ClearedBy, SetBy, CountSlots, SlotId;
  }

  lemma InnersAreStamped(plan: Plan, edits: map<nat, seq<Item>>, ehcs: seq<EHC>, outers: seq<Outer>, body: Tree.Stmt)
    requires plan == PlanOf(ehcs, outers, body) && EditsConform(edits, plan.slots)
    ensures InnersStamped(plan, edits, NumberBlocks(ehcs, 0), body)
  {
    hide SlotId, NumberBlocks, NumberFirsts, EditsConform, ClearedBy, SetBy, InnerSlots, OuterSlots, CountSlots,
         CountInner;
    hide Locs, PairOf;
    var es := NumberBlocks(ehcs, 0);
    BlockNumber(ehcs, 0, 0);
    forall b: nat, i: nat | b < |es| && i < |es[b].firsts| && !es[b].firsts[i].isOuter
      ensures var f, k := es[b].firsts[i], SlotNumber(es, b, i);
              && k < |plan.slots| && f.id == SlotId(k) && plan.slots[k].undo == f.stmt.id
              && ClearedBy(plan.slots[k], f.id, [], body, edits) && SetBy(plan.slots[k], f.id, PairOf(f), body, edits)
    {
      NumberBlocksAt(ehcs, 0, b);
      BlockNumber(ehcs, 0, b);
      NumberFirstsAt(ehcs[b].firsts, CountSlots(ehcs[..b]));
      FirstNumber(ehcs[b].firsts, CountSlots(ehcs[..b]), i);
      InnerSlotAt(ehcs, b, i, body);
      var f, k := es[b].firsts[i], SlotNumber(es, b, i);
      assert k == SlotNumber(ehcs, b, i);
      SamePair(ehcs[b].firsts[i], f);
      NoLocs(body);
      SlotIsStamped(edits, plan.slots, k, [], PairOf(f), body);
    }
  }

  lemma SamePair(f: NewStmt, f': NewStmt)
    requires f'.pair == f.pair
    ensures PairOf(f') == PairOf(f)
  {
  }

  // ----- where a stamp goes -----

  predicate Chooses(s: Tree.Stmt) {
    s.kind.IfStmt? || s.kind.ForStmt? || s.kind.WhileStmt?
  }

  /** The innermost conditional that a path leads through. */
  predicate Innermost(path: seq<Tree.Stmt>, i: nat) {
    0 < i < |path| - 1 && Chooses(path[i]) && forall j :: i < j < |path| - 1 ==> !Chooses(path[j])
  }

  /** The stamp of a statement that stands in no conditional goes behind it, and so does that of one inside a
      conditional whose condition does not mention it; the stamp of one that the condition of the innermost conditional
      mentions goes behind the brace that opens what the condition guards. Conditionals themselves get none. */
  lemma StampPlaces(s: Tree.Stmt, body: Tree.Stmt)
    requires Path([body], s.id) != []
    requires forall i :: 0 < i < |Path([body], s.id)| - 1 ==> Path([body], s.id)[i].begin != body.begin
    ensures (forall i :: 0 < i < |Path([body], s.id)| - 1 ==> !Chooses(Path([body], s.id)[i])) ==>
              StampLoc(s, body) == if Chooses(s) then None else Some(s.at)
    ensures forall i: nat :: Innermost(Path([body], s.id), i) ==> StampedAt(s, Path([body], s.id)[i], StampLoc(s, body))
  {
    hide Chooses, StampedAt, StampLoc, Path;
    NearestIs(s, body);
    if (forall i :: 0 < i < |Path([body], s.id)| - 1 ==> !Chooses(Path([body], s.id)[i])) {
      StampsByNearest(s, body);
    }
    forall i: nat | Innermost(Path([body], s.id), i)
      ensures StampedAt(s, Path([body], s.id)[i], StampLoc(s, body))
    {
      InnermostIsIn(Path([body], s.id), i);
      StampsByNearest(s, body);
    }
  }

  /** The place of the stamp of s, when t is the innermost conditional around it. */
  predicate StampedAt(s: Tree.Stmt, t: Tree.Stmt, loc: Option<nat>) {
    Chooses(t) &&
    if !Contains(t.kind.cond, s.source) then loc == if Chooses(s) then None else Some(s.at)
    else if t.kind.IfStmt? then
      loc == if |t.kids| >= 2 && t.kids[1].kind.Compound? then Some(t.kids[1].kind.open) else None
    else
      loc == if t.kids != [] && t.kids[|t.kids|-1].kind.Compound? then Some(t.kids[|t.kids|-1].kind.open) else None
  }

  lemma InnermostIsIn(path: seq<Tree.Stmt>, i: nat)
    requires Innermost(path, i)
    ensures 0 < i < |path| - 1 && Chooses(path[i])
  {
  }

  lemma StampsByNearest(s: Tree.Stmt, body: Tree.Stmt)
    ensures match Nearest(s, body)
            case None => StampLoc(s, body) == if Chooses(s) then None else Some(s.at)
            case Some(t) => Chooses(t) ==> StampedAt(s, t, StampLoc(s, body))
  {
    hide Contains;
  }

  lemma NearestIs(s: Tree.Stmt, body: Tree.Stmt)
    requires Path([body], s.id) != []
    requires forall i :: 0 < i < |Path([body], s.id)| - 1 ==> Path([body], s.id)[i].begin != body.begin
    ensures (forall i :: 0 < i < |Path([body], s.id)| - 1 ==> !Chooses(Path([body], s.id)[i])) ==>
              Nearest(s, body) == None
    ensures forall i: nat :: Innermost(Path([body], s.id), i) ==> Nearest(s, body) == Some(Path([body], s.id)[i])
  {
    var path := Path([body], s.id);
    PathStarts(body, s.id);
    var up := path[..|path|-1];
    if up != [] {
      hide Path;
      ClimbFindsNearest(up, body.begin);
      assert forall i :: 0 < i < |up| ==> up[i] == path[i];
      var c := ClimbOn(up, body.begin);
      forall i: nat | Innermost(path, i) ensures c == Some(path[i]) {
        assert IsConditional(up[i]);
        var k :| 0 < k < |up| && up[k] == c.value && IsConditional(up[k])
                 && forall j :: k < j < |up| ==> !IsConditional(up[j]);
        assert Chooses(path[k]);
        assert !(i < k) && !(k < i);
      }
    }
  }

  lemma PathStarts(body: Tree.Stmt, id: nat)
    ensures Path([body], id) != [] ==> Path([body], id)[0] == body
  {
    assert [body][1..] == [];
  }
}
