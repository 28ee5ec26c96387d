/** What the instrumented source does when a statement faults. */
module WholeSource {
  import opened Basics
  import opened Tree
  import opened Blocks
  import opened Slots
  import opened Jumps
  import opened Runtime
  import opened Unwinding
  import opened UnwindingTheorem
  import opened Owing
  import opened Stamps
  import opened Passes
  import opened Pass2
  import opened Transparency

  // ----- instrumenting a source file -----

  /** A function with one of these words in its name closes something; no undo code is generated for it. */
  const CLOSING: seq<string> := [
    "remove", "release", "exit", "destroy", "disable", "unregister", "_put", "close", "unmap", "delete", "del_",
    "cleanup", "done", "shutdown", "deinit", "flush", "dequeue", "free", "clean_up", "showt_down", "unprepare",
    "power_off", "clean"]

  datatype Declaration = Declaration(name: string, body: Stmt, heads: seq<Head>)

  /** What the passes need of a function. */
  ghost predicate Instrumentable(d: Declaration) {
    && Unique([d.body]) && AllResolvable(d.heads, d.body)
    && (forall h :: h in d.heads ==> h.stmt in Below(d.body)) && forall s :: s in Below(d.body) ==> s.text != ""
  }

  /** The function is what the generator makes of it: its jumps stand behind the opening braces and the surviving
      places, its text keeps its plan, and its cleanup block has one line for every slot. */
  ghost predicate Makes(fn: Instrumented, plan: Plan) {
    && Lists(plan.order, 0, |plan.slots|)
    && JumpsAt(fn.edits, Opens(fn.body.kids) + Ends(JumpsIn(fn.body)))
    && forall callees :: FnConforms(Fn(EmitBody(fn.body, fn.edits, callees), fn.closing, fn.cleanup), plan)
  }

  ghost predicate Produced(fns: seq<Instrumented>, plans: seq<Plan>) {
    |fns| == |plans| && forall f: nat :: f < |fns| ==> Makes(fns[f], plans[f])
  }

  lemma NoSlotsListed()
    ensures Lists([], 0, 0)
  {
  }

  /** The visit of a source file, function by function. */
  method InstrumentSource(decls: seq<Declaration>, undoFns: seq<string>, choose: nat -> Outer -> seq<Stmt>)
      returns (fns: seq<Instrumented>, ghost plans: seq<Plan>)
    requires forall i :: 0 <= i < |decls| ==> Instrumentable(decls[i])
    requires "kfree" in undoFns && "kzfree" in undoFns
    ensures Produced(fns, plans) && |fns| == |decls|
    ensures forall i :: 0 <= i < |decls| ==>
              fns[i].body == decls[i].body && (fns[i].closing <==> MentionsAny(decls[i].name, CLOSING))
  {
    hide Makes, MentionsAny;
    fns, plans := [], [];
    for i := 0 to |decls|
      invariant Produced(fns, plans) && |fns| == i
      invariant forall j :: 0 <= j < i ==>
                  fns[j].body == decls[j].body && (fns[j].closing <==> MentionsAny(decls[j].name, CLOSING))
    {
      var fn;
      ghost var plan;
      fn, plan := InstrumentOne(decls[i], undoFns, choose(i));
      fns, plans := fns + [fn], plans + [plan];
    }
  }

  method InstrumentOne(d: Declaration, undoFns: seq<string>, choose: Outer -> seq<Stmt>)
      returns (fn: Instrumented, ghost plan: Plan)
    requires Instrumentable(d) && "kfree" in undoFns && "kzfree" in undoFns
    ensures Makes(fn, plan) && fn.body == d.body && (fn.closing <==> MentionsAny(d.name, CLOSING))
  {
    hide Unique, Resolvable, Opens, Ends, JumpsIn, JumpsAt, FnConforms, EmitBody, Lists, MentionsAny, Below;
    var function_ := new Function(d.body);
    var rw := new Rewriter();
    if MentionsAny(d.name, CLOSING) {
      function_.InstrumentClosing(rw);
      NoSlotsListed();
      fn, plan := Instrumented(d.body, rw.edits, true, []), Plan([], []);
    } else {
      var lines;
      lines, plan := function_.Instrument(rw, d.heads, undoFns, choose);
      fn := Instrumented(d.body, rw.edits, false, CleanupOf(lines));
    }
  }

  // ----- how faults unwind it -----

  /** How the frame leaves: it runs the undo of every outstanding slot that owns a bit, each once, with the flag down,
      and passes the fault on; or it restarts the machine. */
  ghost predicate LeavesClean(P: Program, plans: seq<Plan>, fr: Frame) {
    && fr.fn < |P| == |plans|
    && if P[fr.fn].closing then LeaveBy(P, plans, fr) == [Reboot(fr.fn)]
       else exists owed :: PaysOnce(plans[fr.fn], owed, fr.done)
                        && LeaveBy(P, plans, fr) == UndoneBy(plans[fr.fn], owed) + [Unwound(fr.fn)]
  }

  ghost predicate PaysOnce(plan: Plan, owed: seq<nat>, done: seq<nat>) {
    && AllBelow(owed, |plan.slots|) && Distinct(owed)
    && forall k: nat :: k in owed <==> k < 64 && k < |plan.slots| && Outstanding(plan.slots[k], done)
  }

  lemma FrameLeavesClean(P: Program, plans: seq<Plan>, fr: Frame)
    requires fr.fn < |P| == |plans| && AllBelow(plans[fr.fn].order, |plans[fr.fn].slots|)
    requires Lists(plans[fr.fn].order, 0, |plans[fr.fn].slots|)
    ensures LeavesClean(P, plans, fr)
  {
    hide Outstanding;
    if !P[fr.fn].closing {
      var plan := plans[fr.fn];
      EachOwedOnce(plan, fr.done);
      var owed := OwedSlots(plan, plan.order, fr.done);
      forall k: nat ensures k in owed <==> k < 64 && k < |plan.slots| && Outstanding(plan.slots[k], fr.done) {
        OwedMember(plan, plan.order, fr.done, k);
      }
      assert PaysOnce(plan, owed, fr.done);
    }
  }

  /** Whatever the numbering of the callees, wherever the fault strikes and however deep the calls are: a run that meets
      a guarded fault first unwinds the whole stack, innermost frame first, and each frame leaves clean. */
  lemma FaultsUnwind(fns: seq<Instrumented>, plans: seq<Plan>, callees: map<string, nat>, env: Env, f: nat,
          ev: seq<Event>)
    requires Produced(fns, plans) && !env.irq && env.check >= 0 && f < |fns|
    requires AllGuarded(Runtime.Call(Generated(fns, callees), env, f, State(false, 0, []), ev).st.trace)
    ensures var P := Generated(fns, callees);
            var r := Runtime.Call(P, env, f, State(false, 0, []), ev);
            match r.out
            case Returned => !r.st.hf && NoFault(r.st.trace)
            case Unwinding =>
              r.st.hf && exists pre :: UnwoundClean(P, plans, r.st.trace, pre) && NoneClosing(P, Frames(pre), 0)
            case Rebooted => exists pre :: UnwoundClean(P, plans, r.st.trace, pre) && !NoneClosing(P, Frames(pre), 0)
            case Cut => true
            case _ => false
  {
    hide Frames, Unwind, FnConforms, EmitBody, Exec;
    var P := Generated(fns, callees);
    forall g: nat | g < |P| ensures FnConforms(P[g], plans[g]) && Lists(plans[g].order, 0, |plans[g].slots|) {
      assert Makes(fns[g], plans[g]);
    }
    FaultUnwindsTheStack(P, plans, env, f, ev);
    var r := Runtime.Call(P, env, f, State(false, 0, []), ev);
    if r.out.Unwinding? {
      var pre :| Struck(P, plans, 0, r.st.trace, pre) && NoneClosing(P, Frames(pre), 0);
      FramesLeaveClean(P, plans, pre);
      assert UnwoundClean(P, plans, r.st.trace, pre);
    } else if r.out.Rebooted? {
      var pre :| Struck(P, plans, 0, r.st.trace, pre) && !NoneClosing(P, Frames(pre), 0);
      FramesLeaveClean(P, plans, pre);
      assert UnwoundClean(P, plans, r.st.trace, pre);
    }
  }

  /** The trace is a fault-free beginning, a fault, and the unwinding of all frames there were, each leaving clean. */
  ghost predicate UnwoundClean(P: Program, plans: seq<Plan>, tr: seq<Obs>, pre: seq<Obs>) {
    && Struck(P, plans, 0, tr, pre)
    && forall i :: 0 <= i < |Frames(pre)| ==> LeavesClean(P, plans, Frames(pre)[i])
  }

  lemma FramesLeaveClean(P: Program, plans: seq<Plan>, pre: seq<Obs>)
    requires Conforms(P, plans) && (forall g: nat :: g < |plans| ==> Lists(plans[g].order, 0, |plans[g].slots|))
    requires Known(P, Frames(pre))
    ensures forall i :: 0 <= i < |Frames(pre)| ==> LeavesClean(P, plans, Frames(pre)[i])
  {
    hide Frames, LeavesClean, CodeConforms, Lists;
    forall i | 0 <= i < |Frames(pre)| ensures LeavesClean(P, plans, Frames(pre)[i]) {
      var g := Frames(pre)[i].fn;
      assert FnConforms(P[g], plans[g]);
      FrameLeavesClean(P, plans, Frames(pre)[i]);
    }
  }

  // ----- the guard, read off the source -----

  /** The statements that are steps of the emitted code, and the conditionals. */
  function StepsOf(s: Stmt): seq<Stmt>
    decreases s, 1
  {
    match s.kind
    case Compound(_) => StepsOfAll(s.kids)
    case Labelled => StepsOfAll(s.kids)
    case IfStmt(_) =>
      if |s.kids| < 2 then [] else [s] + StepsOf(s.kids[1]) + if |s.kids| > 2 then StepsOf(s.kids[2]) else []
    case ForStmt(_) => if s.kids == [] then [] else [s] + StepsOf(s.kids[|s.kids|-1])
    case WhileStmt(_) => if s.kids == [] then [] else [s] + StepsOf(s.kids[|s.kids|-1])
    case Return(_) => []
    case Goto(_) => []
    case Break => []
    case Continue => []
    case _ => [s]
  }

  function StepsOfAll(ss: seq<Stmt>): seq<Stmt>
    decreases ss, 0
  {
    if ss == [] then [] else StepsOf(ss[0]) + StepsOfAll(ss[1..])
  }

  predicate Calls(s: Stmt, callees: map<string, nat>, reach: set<nat>) {
    var callee := FirstCallee([s] + Below(s), callees);
    callee.Some? && callee.value in reach
  }

  /** Wherever the condition may fault, it stands in a function of `reach`, and the branch taken then stands in
      braces. */
  predicate TestGuarded(s: Stmt, strikes: set<Event>, here: bool) {
    && (TookFaulting(s.id, true) in strikes ==> here && BodyOf(s).Some? && BodyOf(s).value.kind.Compound?)
    && (TookFaulting(s.id, false) in strikes ==>
          here && s.kind.IfStmt? && |s.kids| > 2 && s.kids[2].kind.Compound?)
  }

  /** The step may fault, or may come back unwound; then it stands in a function of `reach` and its jump was kept. */
  predicate StepGuarded(s: Stmt, callees: map<string, nat>, strikes: set<Event>, reach: set<nat>, here: bool,
                        places: seq<nat>) {
    if IsConditional(s) then TestGuarded(s, strikes, here)
    else Fault(s.at) in strikes || Calls(s, callees, reach) ==> here && s.at in places
  }

  /** Every statement that may fault, and every call of a function from which a fault can be reached, is a place where
      the generator keeps a jump; every condition that may fault comes in front of a brace. */
  ghost predicate Guarded(fns: seq<Instrumented>, callees: map<string, nat>, strikes: set<Event>, reach: set<nat>) {
    forall f: nat, s :: f < |fns| && s in StepsOfAll(fns[f].body.kids) ==>
      StepGuarded(s, callees, strikes, reach, f in reach, Ends(JumpsIn(fns[f].body)))
  }

  /** The text has a jump behind every opening brace of the forest. */
  ghost predicate BracesJump(forest: seq<Stmt>, edits: map<nat, seq<Item>>) {
    forall at: nat :: at in Opens(forest) ==> HasJump(Behind(edits, at))
  }

  lemma {:induction false} BracesOfKid(forest: seq<Stmt>, i: nat, edits: map<nat, seq<Item>>)
    requires i < |forest| && BracesJump(forest, edits)
    ensures BracesJump([forest[i]], edits) && BracesJump(forest[i].kids, edits)
  {
    hide HasJump, Behind;
    if i > 0 {
      assert BracesJump(forest[1..], edits);
      BracesOfKid(forest[1..], i - 1, edits);
    } else {
      assert [forest[0]][1..] == [] && Opens([]) == [];
      assert Opens(forest) == Opens([forest[0]]) + Opens(forest[1..]);
    }
  }

  lemma BraceJumps(s: Stmt, edits: map<nat, seq<Item>>, callees: map<string, nat>)
    requires BracesJump([s], edits) && s.kind.Compound?
    ensures OpensWithJump(Emit(s, edits, callees))
  {
    assert [s][1..] == [];
    assert s.kind.open in Opens([s]);
  }

  lemma {:induction false} StepsWatched(s: Stmt, edits: map<nat, seq<Item>>, callees: map<string, nat>,
                                        strikes: set<Event>, reach: set<nat>, here: bool, places: seq<nat>)
    requires forall t :: t in StepsOf(s) ==> StepGuarded(t, callees, strikes, reach, here, places)
    requires forall at: nat :: at in places ==> HasJump(Behind(edits, at))
    requires BracesJump([s], edits)
    ensures Watches(Emit(s, edits, callees), strikes, reach, here)
    decreases s, 1
  {
    hide Behind, HasJump, StepGuarded, BracesJump;
    BracesOfKid([s], 0, edits);
    match s.kind
    case Compound(_) => AllStepsWatched(s.kids, edits, callees, strikes, reach, here, places);
    case Labelled => AllStepsWatched(s.kids, edits, callees, strikes, reach, here, places);
    case IfStmt(_) => ChoiceWatched(s, edits, callees, strikes, reach, here, places);
    case ForStmt(_) => ChoiceWatched(s, edits, callees, strikes, reach, here, places);
    case WhileStmt(_) => ChoiceWatched(s, edits, callees, strikes, reach, here, places);
    case Return(_) =>
    case Goto(_) =>
    case Break =>
    case Continue =>
    case _ => OneStepWatched(s, edits, callees, strikes, reach, here, places);
  }

  lemma {:induction false} ChoiceWatched(s: Stmt, edits: map<nat, seq<Item>>, callees: map<string, nat>,
                                         strikes: set<Event>, reach: set<nat>, here: bool, places: seq<nat>)
    requires IsConditional(s)
    requires forall t :: t in StepsOf(s) ==> StepGuarded(t, callees, strikes, reach, here, places)
    requires forall at: nat :: at in places ==> HasJump(Behind(edits, at))
    requires BracesJump(s.kids, edits)
    ensures Watches(Emit(s, edits, callees), strikes, reach, here)
    decreases s, 0
  {
    hide Behind, HasJump, BracesJump, Opens, OpensWithJump, StepGuarded;
    if BodyOf(s).Some? {
      var arm := BodyOf(s).value;
      var i := if s.kind.IfStmt? then 1 else |s.kids| - 1;
      assert arm == s.kids[i];
      BracesOfKid(s.kids, i, edits);
      StepsWatched(arm, edits, callees, strikes, reach, here, places);
      assert s in StepsOf(s);
      TestIsGuarded(s, callees, strikes, reach, here, places);
      if arm.kind.Compound? {
        BraceJumps(arm, edits, callees);
      }
      if s.kind.IfStmt? && |s.kids| > 2 {
        BracesOfKid(s.kids, 2, edits);
        StepsWatched(s.kids[2], edits, callees, strikes, reach, here, places);
        if s.kids[2].kind.Compound? {
          BraceJumps(s.kids[2], edits, callees);
        }
      }
    }
  }

  lemma TestIsGuarded(s: Stmt, callees: map<string, nat>, strikes: set<Event>, reach: set<nat>, here: bool,
                      places: seq<nat>)
    requires IsConditional(s) && StepGuarded(s, callees, strikes, reach, here, places)
    ensures TestGuarded(s, strikes, here)
  {
  }

  lemma OneStepWatched(s: Stmt, edits: map<nat, seq<Item>>, callees: map<string, nat>, strikes: set<Event>,
                       reach: set<nat>, here: bool, places: seq<nat>)
    requires forall t :: t in StepsOf(s) ==> StepGuarded(t, callees, strikes, reach, here, places)
    requires forall at: nat :: at in places ==> HasJump(Behind(edits, at))
    requires !IsConditional(s) && StepsOf(s) == [s]
    requires Emit(s, edits, callees) == Code.Stmt(s.at, FirstCallee([s] + Below(s), callees), Behind(edits, s.at))
    ensures Watches(Emit(s, edits, callees), strikes, reach, here)
  {
    assert StepGuarded(s, callees, strikes, reach, here, places);
  }

  lemma {:induction false} AllStepsWatched(ss: seq<Stmt>, edits: map<nat, seq<Item>>, callees: map<string, nat>,
                                           strikes: set<Event>, reach: set<nat>, here: bool, places: seq<nat>)
    requires forall t :: t in StepsOfAll(ss) ==> StepGuarded(t, callees, strikes, reach, here, places)
    requires forall at: nat :: at in places ==> HasJump(Behind(edits, at))
    requires BracesJump(ss, edits)
    ensures Watches(EmitAll(ss, edits, callees), strikes, reach, here)
    decreases ss, 0
  {
    hide Behind, HasJump, StepGuarded, BracesJump;
    if ss != [] {
      BracesOfKid(ss, 0, edits);
      BracesOfRest(ss, edits);
      StepsWatched(ss[0], edits, callees, strikes, reach, here, places);
      AllStepsWatched(ss[1..], edits, callees, strikes, reach, here, places);
    }
  }

  lemma BracesOfRest(forest: seq<Stmt>, edits: map<nat, seq<Item>>)
    requires forest != [] && BracesJump(forest, edits)
    ensures BracesJump(forest[1..], edits)
  {
  }

  lemma {:induction false} TopWatched(kids: seq<Stmt>, k: nat, edits: map<nat, seq<Item>>, callees: map<string, nat>,
                                      strikes: set<Event>, reach: set<nat>, here: bool, places: seq<nat>)
    requires forall t :: t in StepsOfAll(kids) ==> StepGuarded(t, callees, strikes, reach, here, places)
    requires forall at: nat :: at in places ==> HasJump(Behind(edits, at))
    requires BracesJump(kids, edits)
    ensures Watches(EmitTop(kids, k, edits, callees), strikes, reach, here)
  {
    hide Behind, HasJump, StepGuarded, Emit, EmitAll, BracesJump;
    if kids == [] || k == 0 {
      AllStepsWatched(kids, edits, callees, strikes, reach, here, places);
    } else {
      BracesOfKid(kids, 0, edits);
      BracesOfRest(kids, edits);
      StepsWatched(kids[0], edits, callees, strikes, reach, here, places);
      TopWatched(kids[1..], k - 1, edits, callees, strikes, reach, here, places);
    }
  }

  lemma SourceWatched(fns: seq<Instrumented>, plans: seq<Plan>, callees: map<string, nat>, strikes: set<Event>,
                      reach: set<nat>)
    requires Produced(fns, plans) && Guarded(fns, callees, strikes, reach)
    ensures Watched(Generated(fns, callees), strikes, reach)
  {
    hide Watches, EmitTop, StepGuarded, StepsOfAll, JumpsIn, Opens, Ends, HasJump, Behind, FnConforms;
    forall f: nat | f < |fns|
      ensures Watches(EmitBody(fns[f].body, fns[f].edits, callees), strikes, reach, f in reach)
    {
      var fn, places := fns[f], Ends(JumpsIn(fns[f].body));
      assert Makes(fn, plans[f]);
      forall at: nat | at in places ensures HasJump(Behind(fn.edits, at)) {
        assert at in Opens(fn.body.kids) + places;
      }
      forall at: nat | at in Opens(fn.body.kids) ensures HasJump(Behind(fn.edits, at)) {
        assert at in Opens(fn.body.kids) + places;
      }
      assert BracesJump(fn.body.kids, fn.edits);
      TopWatched(fn.body.kids, CleanupPlace(fn.body.kids), fn.edits, callees, strikes, reach, f in reach, places);
    }
  }

  /** The instrumented source and one fault. Let faults strike only statements that the generator gives a jump and
      conditions in front of a brace, and let every call of a function from which such a place can be reached be given a
      jump, too. Then every run returns plainly, or unwinds the whole stack, innermost frame first and each frame clean,
      up to the outermost function or to a restart. */
  lemma SourceUnwinds(fns: seq<Instrumented>, plans: seq<Plan>, callees: map<string, nat>, env: Env, f: nat,
                      ev: seq<Event>, strikes: set<Event>, reach: set<nat>)
    requires Produced(fns, plans) && !env.irq && env.check >= 0 && f < |fns|
    requires StrikesOnly(ev, strikes) && Guarded(fns, callees, strikes, reach)
    ensures var P := Generated(fns, callees);
            var r := Runtime.Call(P, env, f, State(false, 0, []), ev);
            match r.out
            case Returned => !r.st.hf && NoFault(r.st.trace)
            case Unwinding =>
              r.st.hf && exists pre :: UnwoundClean(P, plans, r.st.trace, pre) && NoneClosing(P, Frames(pre), 0)
            case Rebooted => exists pre :: UnwoundClean(P, plans, r.st.trace, pre) && !NoneClosing(P, Frames(pre), 0)
            case Cut => true
            case _ => false
  {
    hide Frames, Unwind, Makes, UnwoundClean, Guarded;
    SourceWatched(fns, plans, callees, strikes, reach);
    CallCalm(Generated(fns, callees), env, f, State(false, 0, []), ev, strikes, reach);
    FaultsUnwind(fns, plans, callees, env, f, ev);
  }
}
