/** When the order in which outers are undone is the opposite of the order in which their statements took effect. */
module TakenOrder {
  import opened Basics
  import opened Blocks
  import opened Outers
  import opened Owing
  import opened Passes
  import R = Runtime
  import opened Slots
  import opened Stamps
  import opened Tree
  import opened Unwinding

  /** When the slot was last taken: the position of the last pair that completed, and -1 when there is none. */
  function LastTaken(slot: Slot, done: seq<nat>): int {
    if done == [] then -1
    else if done[|done|-1] in slot.pairs then |done| - 1
    else LastTaken(slot, done[..|done|-1])
  }

  /** What was taken last is undone first. */
  predicate LastInFirstOut(plan: Plan, owed: seq<nat>, done: seq<nat>)
    requires AllBelow(owed, |plan.slots|)
  {
    forall i, j :: 0 <= i < j < |owed| ==> LastTaken(plan.slots[owed[j]], done) < LastTaken(plan.slots[owed[i]], done)
  }

  predicate Descends(order: seq<nat>) {
    forall i, j :: 0 <= i < j < |order| ==> order[j] < order[i]
  }

  lemma {:induction false} OuterOrderDescends(n: nat, k: nat)
    ensures Descends(OuterOrder(n, k))
  {
    if n > 0 {
      OuterOrderDescends(n - 1, k + 1);
      OuterOrderLists(n - 1, k + 1);
      var order := OuterOrder(n - 1, k + 1);
      forall i | 0 <= i < |order| ensures order[i] > k {
        assert order[i] in order;
      }
    }
  }

  lemma {:induction false} OwedDescends(plan: Plan, order: seq<nat>, done: seq<nat>)
    requires AllBelow(order, |plan.slots|) && Descends(order)
    ensures Descends(OwedSlots(plan, order, done))
  {
    hide Outstanding;
    if order != [] {
      var rest := OwedSlots(plan, order[1..], done);
      OwedDescends(plan, order[1..], done);
      forall i | 0 <= i < |rest| ensures rest[i] < order[0] {
        assert rest[i] in rest;
        OwedMember(plan, order[1..], done, rest[i]);
        var j :| 0 <= j < |order[1..]| && order[1..][j] == rest[i];
        assert order[j + 1] < order[0];
      }
    }
  }

  lemma {:induction false} OwedAppend(plan: Plan, a: seq<nat>, b: seq<nat>, done: seq<nat>)
    requires AllBelow(a, |plan.slots|) && AllBelow(b, |plan.slots|)
    ensures AllBelow(a + b, |plan.slots|)
    ensures OwedSlots(plan, a + b, done) == OwedSlots(plan, a, done) + OwedSlots(plan, b, done)
  {
    hide Outstanding;
    if a == [] {
      assert a + b == b;
    } else {
      assert (a + b)[1..] == a[1..] + b;
      OwedAppend(plan, a[1..], b, done);
    }
  }

  /** The outstanding slots of a descending list are undone last taken first exactly when they were taken in ascending
      order. */
  lemma DescendingOrder(plan: Plan, order: seq<nat>, done: seq<nat>)
    requires AllBelow(order, |plan.slots|) && Descends(order)
    ensures var owed := OwedSlots(plan, order, done);
            && AllBelow(owed, |plan.slots|) && Descends(owed)
            && (LastInFirstOut(plan, owed, done) <==>
                forall k: nat, l: nat :: k < l && k in owed && l in owed ==>
                  LastTaken(plan.slots[k], done) < LastTaken(plan.slots[l], done))
  {
    hide Outstanding, LastTaken, OwedSlots, Owed, UndoneBy;
    OwedIsUndone(plan, order, done);
    OwedDescends(plan, order, done);
    var owed := OwedSlots(plan, order, done);
    if LastInFirstOut(plan, owed, done) {
      forall k: nat, l: nat | k < l && k in owed && l in owed
        ensures LastTaken(plan.slots[k], done) < LastTaken(plan.slots[l], done)
      {
        var i :| 0 <= i < |owed| && owed[i] == l;
        var j :| 0 <= j < |owed| && owed[j] == k;
        assert i < j;
      }
    }
    if forall k: nat, l: nat :: k < l && k in owed && l in owed ==>
         LastTaken(plan.slots[k], done) < LastTaken(plan.slots[l], done)
    {
      forall i, j | 0 <= i < j < |owed|
        ensures LastTaken(plan.slots[owed[j]], done) < LastTaken(plan.slots[owed[i]], done)
      {
        assert owed[j] < owed[i] && owed[i] in owed && owed[j] in owed;
      }
    }
  }

  /** The slot of an outer is outstanding and owns a bit. */
  predicate OuterOwed(plan: Plan, n: nat, k: nat, done: seq<nat>) {
    n <= k < 64 && k < |plan.slots| && Outstanding(plan.slots[k], done)
  }

  /** At any moment of a run: the cleanup block undoes the outstanding outers before everything else, the last collected
      first. So the last taken is undone first if and only if the outstanding outers were taken in the order in which
      the outers were collected. */
  lemma OutersLastInFirstOut(ehcs: seq<EHC>, outers: seq<Outer>, body: Stmt, done: seq<nat>)
    ensures var plan, n := PlanOf(ehcs, outers, body), CountSlots(ehcs);
            var outer, inner := OuterOrder(|outers|, n), InnerOrder(ehcs, 0);
            && |plan.slots| == n + |outers| && AllBelow(plan.order, |plan.slots|)
            && AllBelow(outer, |plan.slots|) && AllBelow(inner, |plan.slots|)
            && var owed := OwedSlots(plan, outer, done);
            && OwedSlots(plan, plan.order, done) == owed + OwedSlots(plan, inner, done)
            && AllBelow(owed, |plan.slots|) && Descends(owed)
            && (forall k: nat :: k in owed <==> OuterOwed(plan, n, k, done))
            && (LastInFirstOut(plan, owed, done) <==>
                forall k: nat, l: nat :: k < l && OuterOwed(plan, n, k, done) && OuterOwed(plan, n, l, done) ==>
                  LastTaken(plan.slots[k], done) < LastTaken(plan.slots[l], done))
  {
    hide Outstanding, LastTaken, LastInFirstOut, OwedSlots, Descends;
    var plan, n := PlanOf(ehcs, outers, body), CountSlots(ehcs);
    var outer, inner := OuterOrder(|outers|, n), InnerOrder(ehcs, 0);
    InnerSlotsCount(ehcs, body);
    OuterSlotsCount(outers, body);
    OuterOrderLists(|outers|, n);
    InnerOrderLists(ehcs, 0);
    forall i | 0 <= i < |outer| ensures outer[i] < |plan.slots| {
      assert outer[i] in outer;
    }
    forall i | 0 <= i < |inner| ensures inner[i] < |plan.slots| {
      assert inner[i] in inner;
    }
    OwedAppend(plan, outer, inner, done);
    OuterOrderDescends(|outers|, n);
    DescendingOrder(plan, outer, done);
    forall k: nat ensures k in OwedSlots(plan, outer, done) <==> OuterOwed(plan, n, k, done) {
      OwedMember(plan, outer, done, k);
    }
  }

  // ----- nested locks -----

  function LockA(): Stmt {
    Stmt(1, Call("mutex_lock", ["&a"], ["&a"]), "mutex_lock(&a)", "mutex_lock(&a)", false,
         true, 10, 11, 2, 2, false, [])
  }

  function LockB(): Stmt {
    Stmt(2, Call("mutex_lock", ["&b"], ["&b"]), "mutex_lock(&b)", "mutex_lock(&b)", false,
         true, 20, 21, 3, 3, false, [])
  }

  function UnlockB(): Stmt {
    Stmt(3, Call("mutex_unlock", ["&b"], ["&b"]), "mutex_unlock(&b)", "mutex_unlock(&b)", false,
         true, 30, 31, 4, 4, false, [])
  }

  function UnlockA(): Stmt {
    Stmt(4, Call("mutex_unlock", ["&a"], ["&a"]), "mutex_unlock(&a)", "mutex_unlock(&a)", false,
         true, 40, 41, 5, 5, false, [])
  }

  function NestedBody(): Stmt {
    Stmt(0, Compound(1), "{}", "{}", false, false, 0, 50, 1, 6, false, [LockA(), LockB(), UnlockB(), UnlockA()])
  }

  lemma NestedFacts()
    ensures NestedBody().kids == [LockA(), LockB(), UnlockB(), UnlockA()]
    ensures forall s :: s in NestedBody().kids ==> s.kids == [] && !s.macro && s.kind.Call?
    ensures LockA().id == 1 && LockB().id == 2 && UnlockB().id == 3 && UnlockA().id == 4 && NestedBody().id == 0
    ensures LockA().at == 11 && LockB().at == 21 && UnlockB().at == 31 && UnlockA().at == 41
  {
  }

  lemma NestedBelow()
    ensures Below(NestedBody()) == [LockA(), LockB(), UnlockB(), UnlockA()]
  {
    hide LockA, LockB, UnlockB, UnlockA;
    NestedFacts();
    var a, b, c, d := LockA(), LockB(), UnlockB(), UnlockA();
    Leaf(d, []);
    Leaf(c, [d]);
    Leaf(b, [c, d]);
    Leaf(a, [b, c, d]);
    assert [a] + [b, c, d] == [a, b, c, d] && [b] + [c, d] == [b, c, d] && [c] + [d] == [c, d] && [d] + [] == [d];
  }

  lemma Leaf(s: Stmt, rest: seq<Stmt>)
    requires s.kids == []
    ensures Flatten([s] + rest) == [s] + Flatten(rest)
  {
    assert ([s] + rest)[1..] == rest;
  }

  lemma NestedPath(i: nat)
    requires i < 4
    ensures Path([NestedBody()], NestedBody().kids[i].id) == [NestedBody(), NestedBody().kids[i]]
  {
    hide LockA, LockB, UnlockB, UnlockA;
    NestedFacts();
    var kids := NestedBody().kids;
    assert kids[1..][1..] == [kids[2], kids[3]] && [kids[2], kids[3]][1..] == [kids[3]] && [kids[3]][1..] == [];
  }

  lemma NestedStamp(i: nat)
    requires i < 4
    ensures StampLoc(NestedBody().kids[i], NestedBody()) == Some(NestedBody().kids[i].at)
  {
    NestedPath(i);
    var body, s := NestedBody(), NestedBody().kids[i];
    assert [body, s][..1] == [body];
    assert Nearest(s, body) == None;
    NestedFacts();
  }

  lemma NestedOuters(undoFns: seq<string>, choose: Outer -> seq<Stmt>)
    requires "mutex_lock" !in undoFns
    ensures WithPairs(Merge(OutersIn(NestedBody().kids, undoFns, NestedBody())), NestedBody(), choose)
            == [Outer(UnlockB(), [LockB()], 0, [], []), Outer(UnlockA(), [LockA()], 0, [], [])]
  {
    hide LockA, LockB, UnlockB, UnlockA, IsOuterUndo, Matches;
    var body := NestedBody();
    NestedBelow();
    NestedUndos(undoFns);
    var c, d := UnlockB(), UnlockA();
    NestedAsOuters(undoFns);
    NestedMerge();
    NestedMatches();
    NestedReleases();
    assert [] + [LockB()] == [LockB()] && [] + [LockA()] == [LockA()];
  }

  lemma NestedReleases()
    ensures IsReleaseCall(UnlockB()) && IsReleaseCall(UnlockA())
  {
  }

  lemma NestedUndos(undoFns: seq<string>)
    requires "mutex_lock" !in undoFns
    ensures Filter([LockA(), LockB(), UnlockB(), UnlockA()], IsOuterUndo(undoFns, NestedBody()))
            == [UnlockB(), UnlockA()]
  {
    hide LockA, LockB, UnlockB, UnlockA;
    var a, b, c, d := LockA(), LockB(), UnlockB(), UnlockA();
    var p := IsOuterUndo(undoFns, NestedBody());
    NestedTests(undoFns);
    FilterCons(d, [], p);
    FilterCons(c, [d], p);
    FilterCons(b, [c, d], p);
    FilterCons(a, [b, c, d], p);
    assert [a] + [b, c, d] == [a, b, c, d] && [b] + [c, d] == [b, c, d] && [c] + [d] == [c, d] && [d] + [] == [d];
  }

  lemma NestedAsOuters(undoFns: seq<string>)
    ensures AsOuters([UnlockB(), UnlockA()], undoFns)
            == [Outer(UnlockB(), [], 0, [], []), Outer(UnlockA(), [], 0, [], [])]
  {
    NestedReleases();
    var c, d := UnlockB(), UnlockA();
    assert [c, d][1..] == [d] && [d][1..] == [];
    assert AsOuters([d], undoFns) == [Outer(d, [], 0, [], [])];
  }

  lemma NestedMerge()
    ensures var x, y := Outer(UnlockB(), [], 0, [], []), Outer(UnlockA(), [], 0, [], []);
            Merge([x, y]) == [x, y]
  {
    var x, y := Outer(UnlockB(), [], 0, [], []), Outer(UnlockA(), [], 0, [], []);
    var source := x.stmt.source;
    assert [x, y][1..] == [y] && [y][1..] == [];
    assert y.stmt.source[14] != source[14];
    assert Filter([y], OtherSource(source)) == [y] && Filter([y], SameSource(source)) == [];
    assert Merge([y]) == [y];
  }

  lemma NestedTests(undoFns: seq<string>)
    requires "mutex_lock" !in undoFns
    ensures var p := IsOuterUndo(undoFns, NestedBody());
            !p(LockA()) && !p(LockB()) && p(UnlockB()) && p(UnlockA())
  {
    assert |"mutex_lock"| == 10 && |"mutex_unlock"| == 12 && |"spin_unlock"| == 11 && |"spin_unlock_irqrestore"| == 22;
  }

  /** Each unlock finds its own lock. */
  lemma NestedMatches()
    ensures Matches(NestedBody().kids, UnlockB()) == [LockB()] && Matches(NestedBody().kids, UnlockA()) == [LockA()]
  {
    var a, b, c, d := LockA(), LockB(), UnlockB(), UnlockA();
    assert IsPair(c, b) && IsPair(d, a) && !IsPair(c, a) && !IsPair(d, b) by {
      assert "&a"[1] != "&b"[1];
    }
    assert !IsPair(c, c) && !IsPair(c, d) && !IsPair(d, c) && !IsPair(d, d) by {
      assert |"mutex_lock"| == 10 && |"mutex_unlock"| == 12;
    }
    LeafMatches(d, [], c);
    LeafMatches(c, [d], c);
    LeafMatches(b, [c, d], c);
    LeafMatches(a, [b, c, d], c);
    LeafMatches(d, [], d);
    LeafMatches(c, [d], d);
    LeafMatches(b, [c, d], d);
    LeafMatches(a, [b, c, d], d);
    assert [a] + [b, c, d] == [a, b, c, d] && [b] + [c, d] == [b, c, d] && [c] + [d] == [c, d] && [d] + [] == [d];
  }

  lemma LeafMatches(t: Stmt, rest: seq<Stmt>, s: Stmt)
    requires t.kids == []
    ensures Matches([t] + rest, s) == (if IsPair(s, t) then [t] else []) + Matches(rest, s)
  {
    assert ([t] + rest)[1..] == rest;
  }

  /** The inner unlock is collected first and gets the lower slot. */
  function NestedPlan(): Plan {
    Plan([Slot([LockB().at], [UnlockB().at], UnlockB().id), Slot([LockA().at], [UnlockA().at], UnlockA().id)], [1, 0])
  }

  /** Properly nested locks, through the generator's passes: with both locks held the cleanup block releases the outer
      lock first. */
  lemma NestedLocksComeFirstInFirstOut(undoFns: seq<string>, choose: Outer -> seq<Stmt>) returns (plan: Plan)
    requires "mutex_lock" !in undoFns
    ensures var body := NestedBody();
            plan == PlanOf([], WithPairs(Merge(OutersIn(body.kids, undoFns, body)), body, choose), body)
    ensures AllBelow(plan.order, |plan.slots|)
    ensures Owed(plan, plan.order, [LockA().at, LockB().at])
            == [R.Undid(UnlockA().id, false), R.Undid(UnlockB().id, false)]
    ensures !LastInFirstOut(plan, plan.order, [LockA().at, LockB().at])
  {
    plan := NestedPlan();
    NestedOwed();
    hide Merge, OutersIn, WithPairs, StampLoc, LockA, LockB, UnlockA, UnlockB, LastInFirstOut, Owed;
    var body := NestedBody();
    var a, b, c, d := LockA(), LockB(), UnlockB(), UnlockA();
    NestedFacts();
    NestedOuters(undoFns, choose);
    var x, y := Outer(c, [b], 0, [], []), Outer(d, [a], 0, [], []);
    NestedStamp(0);
    NestedStamp(1);
    NestedStamp(2);
    NestedStamp(3);
    OneLoc(a, body);
    OneLoc(b, body);
    OneLoc(c, body);
    OneLoc(d, body);
    assert [x, y][1..] == [y] && [y][1..] == [];
    assert [c] + [] == [c] && [d] + [] == [d];
    assert OuterSlots([y], body) == [plan.slots[1]];
    assert OuterSlots([x, y], body) == plan.slots;
    assert OuterOrder(1, 1) == [1] && OuterOrder(2, 0) == [1, 0];
  }

  lemma OneLoc(s: Stmt, body: Stmt)
    requires StampLoc(s, body) == Some(s.at)
    ensures Locs([s], body) == [s.at]
  {
    assert [s][1..] == [];
  }

  lemma NestedOwed()
    ensures Owed(NestedPlan(), [1, 0], [11, 21]) == [R.Undid(4, false), R.Undid(3, false)]
    ensures !LastInFirstOut(NestedPlan(), [1, 0], [11, 21])
  {
    var plan := NestedPlan();
    assert plan.slots == [Slot([21], [31], 3), Slot([11], [41], 4)];
    assert [11, 21][..1] == [11] && [11][..0] == [];
    assert Outstanding(plan.slots[1], [11]) && Outstanding(plan.slots[1], [11, 21]);
    assert Outstanding(plan.slots[0], [11, 21]);
    assert [1, 0][1..] == [0] && [0][1..] == [];
    assert Owed(plan, [0], [11, 21]) == [R.Undid(3, false)];
    assert LastTaken(plan.slots[1], [11]) == 0 && LastTaken(plan.slots[1], [11, 21]) == 0;
    assert LastTaken(plan.slots[0], [11, 21]) == 1;
    assert plan.slots[[1, 0][0]] == plan.slots[1] && plan.slots[[1, 0][1]] == plan.slots[0];
  }
}
