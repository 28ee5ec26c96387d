/** What the unwinding of a fault means for the resources a function holds, and when the generated jumps suffice. */
module Owing {
  import opened MaskWord
  import opened Runtime
  import opened Refinement
  import opened Unwinding
  import opened UnwindingTheorem
  import opened Stamps

  // ----- outstanding means held -----

  /** Acquisitions of a slot's resource minus releases. */
  function Balance(slot: Slot, done: seq<nat>): int {
    if done == [] then 0
    else
      var last := done[|done|-1];
      Balance(slot, done[..|done|-1]) + if last in slot.pairs then 1 else if last in slot.undos then -1 else 0
  }

  /** The pair and undo statements of the slot have taken turns, a pair first. */
  predicate Alternates(slot: Slot, done: seq<nat>) {
    forall n :: 0 <= n <= |done| ==> 0 <= Balance(slot, done[..n]) <= 1
  }

  /** A slot is outstanding all along exactly when its resource is held once, precisely for statements that take
      turns: with a second acquisition, or a release too many, the mask bit and the balance part ways. */
  lemma {:induction false} OutstandingMeansHeld(slot: Slot, done: seq<nat>)
    ensures Alternates(slot, done) <==>
            forall n :: 0 <= n <= |done| ==> Balance(slot, done[..n]) == if Outstanding(slot, done[..n]) then 1 else 0
  {
    if done == [] {
      assert done[..0] == [];
    } else {
      var prev := done[..|done|-1];
      OutstandingMeansHeld(slot, prev);
      assert forall n :: 0 <= n <= |prev| ==> prev[..n] == done[..n];
      assert done[..|done|] == done && done[..|prev|] == prev;
      if Alternates(slot, done) {
        forall n | 0 <= n <= |prev| ensures 0 <= Balance(slot, prev[..n]) <= 1 {
          assert 0 <= Balance(slot, done[..n]) <= 1;
        }
        assert 0 <= Balance(slot, done[..|done|]) <= 1;
        forall n | 0 <= n <= |done| ensures Balance(slot, done[..n]) == if Outstanding(slot, done[..n]) then 1 else 0 {
          assert Balance(slot, prev[..|prev|]) == if Outstanding(slot, prev[..|prev|]) then 1 else 0;
          assert prev[..|prev|] == prev;
          if n < |done| {
            assert Balance(slot, prev[..n]) == if Outstanding(slot, prev[..n]) then 1 else 0;
          }
        }
      }
    }
  }

  // ----- every outstanding undo runs, once -----

  function OwedSlots(plan: Plan, order: seq<nat>, done: seq<nat>): seq<nat>
    requires AllBelow(order, |plan.slots|)
  {
    if order == [] then []
    else
      (if order[0] < 64 && Outstanding(plan.slots[order[0]], done) then [order[0]] else [])
      + OwedSlots(plan, order[1..], done)
  }

  function UndoneBy(plan: Plan, owed: seq<nat>): seq<Obs>
    requires AllBelow(owed, |plan.slots|)
  {
    if owed == [] then [] else [Undid(plan.slots[owed[0]].undo, false)] + UndoneBy(plan, owed[1..])
  }

  predicate Distinct(s: seq<nat>) {
    forall i, j :: 0 <= i < j < |s| ==> s[i] != s[j]
  }

  lemma {:induction false} OwedIsUndone(plan: Plan, order: seq<nat>, done: seq<nat>)
    requires AllBelow(order, |plan.slots|)
    ensures var owed := OwedSlots(plan, order, done);
            AllBelow(owed, |plan.slots|) && Owed(plan, order, done) == UndoneBy(plan, owed)
  {
    hide Outstanding;
    if order != [] {
      OwedIsUndone(plan, order[1..], done);
      var k, rest := order[0], OwedSlots(plan, order[1..], done);
      var owed := OwedSlots(plan, order, done);
      if k < 64 && Outstanding(plan.slots[k], done) {
        assert owed == [k] + rest && owed[1..] == rest;
      } else {
        assert owed == rest;
      }
    }
  }

  lemma {:induction false} OwedMember(plan: Plan, order: seq<nat>, done: seq<nat>, k: nat)
    requires AllBelow(order, |plan.slots|)
    ensures k in OwedSlots(plan, order, done) <==>
            k in order && k < 64 && k < |plan.slots| && Outstanding(plan.slots[k], done)
  {
    hide Outstanding;
    if order != [] {
      OwedMember(plan, order[1..], done, k);
      assert order == [order[0]] + order[1..];
    }
  }

  lemma {:induction false} OwedDistinct(plan: Plan, order: seq<nat>, done: seq<nat>)
    requires AllBelow(order, |plan.slots|) && Distinct(order)
    ensures Distinct(OwedSlots(plan, order, done))
  {
    hide Outstanding;
    if order != [] {
      var k, rest := order[0], OwedSlots(plan, order[1..], done);
      OwedDistinct(plan, order[1..], done);
      OwedMember(plan, order[1..], done, k);
      forall j | 0 <= j < |rest| ensures rest[j] != k {
        assert rest[j] in rest;
        assert forall i :: 0 <= i < |order[1..]| ==> order[1..][i] == order[i + 1];
      }
    }
  }

  /** A cleanup block with one line for every slot runs the undo of each outstanding slot exactly once, and it reaches
      all of them exactly when no slot without a mask bit is outstanding. */
  lemma EachOwedOnce(plan: Plan, done: seq<nat>)
    requires AllBelow(plan.order, |plan.slots|) && Lists(plan.order, 0, |plan.slots|)
    ensures var owed := OwedSlots(plan, plan.order, done);
            && AllBelow(owed, |plan.slots|) && Owed(plan, plan.order, done) == UndoneBy(plan, owed)
            && Distinct(owed) && (forall k :: k in owed ==> k < |plan.slots| && Outstanding(plan.slots[k], done))
            && ((forall k: nat :: k < |plan.slots| && Outstanding(plan.slots[k], done) ==> k in owed) <==>
                forall k: nat :: 64 <= k < |plan.slots| ==> !Outstanding(plan.slots[k], done))
  {
    hide Outstanding;
    OwedIsUndone(plan, plan.order, done);
    OwedDistinct(plan, plan.order, done);
    var owed := OwedSlots(plan, plan.order, done);
    forall k: nat ensures k in owed <==> k < 64 && k < |plan.slots| && Outstanding(plan.slots[k], done) {
      OwedMember(plan, plan.order, done, k);
    }
  }

  // ----- jumps that suffice -----

  /** Wherever one of the faults of `strikes` may strike, and a function of `reach` is called, the code stands in a
      function of `reach` and a jump comes next: behind the statement, or at the opening of the arm that is taken. */
  predicate Watches(c: Code, strikes: set<Event>, reach: set<nat>, here: bool) {
    match c
    case Stmt(at, callee, after) =>
      Fault(at) in strikes || (callee.Some? && callee.value in reach) ==> here && HasJump(after)
    case Seq(a, b) => Watches(a, strikes, reach, here) && Watches(b, strikes, reach, here)
    case Block(_, _, body) => Watches(body, strikes, reach, here)
    case If(test, a, b) =>
      && (TookFaulting(test, true) in strikes ==> here && OpensWithJump(a))
      && (TookFaulting(test, false) in strikes ==> here && OpensWithJump(b))
      && Watches(a, strikes, reach, here) && Watches(b, strikes, reach, here)
    case While(test, body) =>
      && (TookFaulting(test, true) in strikes ==> here && OpensWithJump(body))
      && TookFaulting(test, false) !in strikes && Watches(body, strikes, reach, here)
    case Resume(rest, loop) => Watches(rest, strikes, reach, here) && Watches(loop, strikes, reach, here)
    case _ => true
  }

  /** The functions of `reach` are closed under callers and hold all that the faults of `strikes` may strike; in them,
      what may fault and the calls that may come back unwound kept their jumps. */
  ghost predicate Watched(P: Program, strikes: set<Event>, reach: set<nat>) {
    forall f: nat :: f < |P| ==> Watches(P[f].body, strikes, reach, f in reach)
  }

  /** No faults but these. */
  ghost predicate StrikesOnly(ev: seq<Event>, strikes: set<Event>) {
    forall e :: e in ev && (e.Fault? || e.TookFaulting?) ==> e in strikes
  }

  /** Every fault so far was guarded; only a function of `reach` is left by its cleanup block or unwound. */
  ghost predicate Calm(r: Res, strikes: set<Event>, here: bool) {
    && AllGuarded(r.st.trace) && StrikesOnly(r.rest, strikes)
    && match r.out
       case ToCleanup => here
       case Unwinding => here && r.st.hf
       case Rebooted => true
       case Cut => true
       case _ => !r.st.hf
  }

  lemma {:induction false} LabelsWatch(c: Code, l: nat, strikes: set<Event>, reach: set<nat>, here: bool)
    requires Watches(c, strikes, reach, here)
    ensures FromLabel(c, l).Some? ==> Watches(FromLabel(c, l).value, strikes, reach, here)
  {
    match c
    case Seq(a, b) => LabelsWatch(a, l, strikes, reach, here); LabelsWatch(b, l, strikes, reach, here);
    case Block(_, _, body) => LabelsWatch(body, l, strikes, reach, here);
    case If(_, a, b) => LabelsWatch(a, l, strikes, reach, here); LabelsWatch(b, l, strikes, reach, here);
    case While(_, body) => LabelsWatch(body, l, strikes, reach, here);
    case _ =>
  }

  lemma {:induction false} ExecCalm(P: Program, env: Env, c: Code, st: State, ev: seq<Event>, strikes: set<Event>,
                                    reach: set<nat>, here: bool)
    requires Watched(P, strikes, reach) && Watches(c, strikes, reach, here) && !env.irq && env.check >= 0
    requires !st.hf && AllGuarded(st.trace) && StrikesOnly(ev, strikes)
    ensures Calm(Exec(P, env, c, st, ev), strikes, here) && !Exec(P, env, c, st, ev).out.Unwinding?
    decreases |ev|, 0, c, 1
  {
    hide Watched;
    match c
    case Seq(a, b) =>
      ExecCalm(P, env, a, st, ev, strikes, reach, here);
      var r := Exec(P, env, a, st, ev);
      if r.out.Normal? {
        ExecCalm(P, env, b, r.st, r.rest, strikes, reach, here);
      }
    case Resume(rest, loop) =>
      ExecCalm(P, env, rest, st, ev, strikes, reach, here);
      var r := Exec(P, env, rest, st, ev);
      if r.out.Normal? || r.out.Continued? {
        ExecCalm(P, env, loop, r.st, r.rest, strikes, reach, here);
      }
    case Block(at, open, body) =>
      var entered := AfterItems(env, open, Log(st, Did(at)), ev);
      ItemsAreSilent(env, open, st.mask);
      ExecCalm(P, env, body, entered.st, ev, strikes, reach, here);
    case If(_, _, _) => ChoiceCalm(P, env, c, st, ev, strikes, reach, here);
    case While(_, _) => ChoiceCalm(P, env, c, st, ev, strikes, reach, here);
    case Stmt(_, _, _) => StmtCalm(P, env, c, st, ev, strikes, reach, here);
    case _ =>
  }

  lemma {:induction false} ChoiceCalm(P: Program, env: Env, c: Code, st: State, ev: seq<Event>, strikes: set<Event>,
                                      reach: set<nat>, here: bool)
    requires c.If? || c.While?
    requires Watched(P, strikes, reach) && Watches(c, strikes, reach, here) && !env.irq && env.check >= 0
    requires !st.hf && AllGuarded(st.trace) && StrikesOnly(ev, strikes)
    ensures Calm(Exec(P, env, c, st, ev), strikes, here) && !Exec(P, env, c, st, ev).out.Unwinding?
    decreases |ev|, 0, c, 0
  {
    hide Watched;
    if ev != [] && ev[0].TookFaulting? && ev[0].test == c.test {
      assert ev[0] in ev;
      FaultyTestCalm(P, env, c, st, ev, strikes, reach, here);
    } else if ev != [] && ev[0].Took? {
      if c.If? {
        ExecCalm(P, env, Arm(c, ev[0].branch), st, ev[1..], strikes, reach, here);
      } else if ev[0].branch {
        ExecCalm(P, env, c.body, st, ev[1..], strikes, reach, here);
        var r := Exec(P, env, c.body, st, ev[1..]);
        if r.out.Normal? || r.out.Continued? {
          ExecCalm(P, env, c, r.st, r.rest, strikes, reach, here);
        }
      }
    }
  }

  /** A test that faults in front of an arm that opens with a jump. */
  lemma FaultyTestCalm(P: Program, env: Env, c: Code, st: State, ev: seq<Event>, strikes: set<Event>, reach: set<nat>,
                       here: bool)
    requires (c.If? || c.While?) && Watches(c, strikes, reach, here) && !env.irq
    requires AllGuarded(st.trace) && StrikesOnly(ev, strikes)
    requires ev != [] && ev[0].TookFaulting? && ev[0].test == c.test && ev[0] in strikes
    ensures Calm(Exec(P, env, c, st, ev), strikes, here) && Exec(P, env, c, st, ev).out.ToCleanup?
  {
    var arm := Arm(c, ev[0].branch);
    assert ev[0] == TookFaulting(c.test, ev[0].branch);
    assert here && OpensWithJump(arm);
    var st' := Log(st.(hf := true), Faulted(true));
    assert Exec(P, env, arm, st', ev[1..]) == Res(ToCleanup, st', ev[1..]);
  }

  lemma {:induction false} StmtCalm(P: Program, env: Env, c: Code, st: State, ev: seq<Event>, strikes: set<Event>,
                                    reach: set<nat>, here: bool)
    requires c.Stmt?
    requires Watched(P, strikes, reach) && Watches(c, strikes, reach, here) && !env.irq && env.check >= 0
    requires !st.hf && AllGuarded(st.trace) && StrikesOnly(ev, strikes)
    ensures Calm(Exec(P, env, c, st, ev), strikes, here) && !Exec(P, env, c, st, ev).out.Unwinding?
    decreases |ev|, 0, c, 0
  {
    hide Watched;
    if ev != [] {
      assert ev[0] in ev;
      if ev[0].Done? {
        if c.callee.Some? && c.callee.value < |P| {
          CallCalm(P, env, c.callee.value, st, ev[1..], strikes, reach);
          ItemsAreSilent(env, c.after, Call(P, env, c.callee.value, st, ev[1..]).st.mask);
        } else {
          ItemsAreSilent(env, c.after, st.mask);
        }
      }
    }
  }

  lemma {:induction false} CallCalm(P: Program, env: Env, f: nat, st: State, ev: seq<Event>, strikes: set<Event>,
                                    reach: set<nat>)
    requires f < |P| && Watched(P, strikes, reach) && !env.irq && env.check >= 0
    requires !st.hf && AllGuarded(st.trace) && StrikesOnly(ev, strikes)
    ensures Calm(Call(P, env, f, st, ev), strikes, f in reach)
    ensures Call(P, env, f, st, ev).out.Returned? || Call(P, env, f, st, ev).out.Unwinding?
            || Call(P, env, f, st, ev).out.Rebooted? || Call(P, env, f, st, ev).out.Cut?
    decreases |ev|, 3
  {
    var st' := Log(st.(mask := 0), Enter(f));
    BodyCalm(P, env, f, P[f].body, st', ev, strikes, reach);
    var r := RunBody(P, env, f, P[f].body, st', ev);
    CleanupCalm(P[f].cleanup, r.st.(hf := false));
  }

  lemma {:induction false} CleanupCalm(guards: seq<Guard>, st: State)
    requires AllGuarded(st.trace)
    ensures AllGuarded(RunGuards(guards, st).trace)
  {
    hide CheckBit;
    if guards != [] {
      CleanupCalm(guards[1..], if CheckBit(st.mask, guards[0].id) then Log(st, Undid(guards[0].undo, st.hf)) else st);
    }
  }

  lemma {:induction false} BodyCalm(P: Program, env: Env, f: nat, c: Code, st: State, ev: seq<Event>,
                                    strikes: set<Event>, reach: set<nat>)
    requires f < |P| && Watched(P, strikes, reach) && Watches(c, strikes, reach, f in reach)
    requires !env.irq && env.check >= 0 && !st.hf && AllGuarded(st.trace) && StrikesOnly(ev, strikes)
    ensures Calm(RunBody(P, env, f, c, st, ev), strikes, f in reach)
    ensures !RunBody(P, env, f, c, st, ev).out.Unwinding?
    decreases |ev|, 2, c
  {
    ExecCalm(P, env, c, st, ev, strikes, reach, f in reach);
    var r := Exec(P, env, c, st, ev);
    if r.out.Jump? {
      LabelsWatch(P[f].body, r.out.target, strikes, reach, f in reach);
      match FromLabel(P[f].body, r.out.target)
      case None =>
      case Some(c') => BodyCalm(P, env, f, c', r.st, r.rest, strikes, reach);
    }
  }

  /** Where the statement that faults, or the arm behind the condition that faults, and every call of a function from
      which that place can be reached kept its jump, a fault unwinds the whole stack, at any depth of calls. Nothing is
      asked of other statements and conditions. */
  lemma JumpsSuffice(P: Program, plans: seq<Plan>, env: Env, f: nat, ev: seq<Event>, strikes: set<Event>,
                     reach: set<nat>)
    requires Conforms(P, plans) && !env.irq && env.check >= 0 && f < |P|
    requires StrikesOnly(ev, strikes) && Watched(P, strikes, reach)
    ensures var r := Call(P, env, f, State(false, 0, []), ev);
            AllGuarded(r.st.trace) &&
            match r.out
            case Returned => !r.st.hf && NoFault(r.st.trace)
            case Unwinding => r.st.hf && exists pre :: Struck(P, plans, 0, r.st.trace, pre)
                                                       && NoneClosing(P, Frames(pre), 0)
            case Rebooted => exists pre :: Struck(P, plans, 0, r.st.trace, pre) && !NoneClosing(P, Frames(pre), 0)
            case Cut => true
            case _ => false
  {
    CallCalm(P, env, f, State(false, 0, []), ev, strikes, reach);
    FaultUnwindsTheStack(P, plans, env, f, ev);
  }
}
