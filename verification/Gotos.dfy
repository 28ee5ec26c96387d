/** What a `goto` runs, and when the statements collected for it are just those. */
module Gotos {
  import opened Basics
  import opened Tree
  import opened Blocks
  import opened Jumps
  import opened Refinement
  import R = Runtime
  import opened Stamps

  // ----- how code may end -----

  datatype Way = Finishes | Breaks | Continues | Exits

  /** How a run that is not cut off may end; conditions may go either way. */
  predicate Can(c: R.Code, w: Way) {
    match c
    case Break => w.Breaks?
    case Continue => w.Continues?
    case Return(_) => w.Exits?
    case Goto(_) => w.Exits?
    case Seq(a, b) => if w.Finishes? then Can(a, w) && Can(b, w) else Can(a, w) || (Can(a, Finishes) && Can(b, w))
    case Block(_, _, body) => Can(body, w)
    case If(_, a, b) => Can(a, w) || Can(b, w)
    case While(_, body) => w.Finishes? || (w.Exits? && Can(body, w))
    case Resume(rest, loop) =>
      var on := Can(rest, Finishes) || Can(rest, Continues);
      (w.Finishes? && Can(rest, Breaks)) || (w.Exits? && Can(rest, w)) || (on && Can(loop, w))
    case _ => w.Finishes?
  }

  predicate EndsBy(out: R.Outcome, w: Way) {
    match w
    case Finishes => out.Normal?
    case Breaks => out.Broke?
    case Continues => out.Continued?
    case Exits => out.Returned? || out.Jump?
  }

  /** A run without a fault and without the environment's veto. */
  ghost predicate Ordinary(env: R.Env, st: R.State, ev: seq<R.Event>) {
    env.check >= 0 && !st.hf && FaultFree(ev)
  }

  lemma OrdinaryOn(P: R.Program, env: R.Env, c: R.Code, st: R.State, ev: seq<R.Event>)
    requires Ordinary(env, st, ev)
    ensures var r := R.Exec(P, env, c, st, ev);
            Ordinary(env, r.st, r.rest) && (r.out.Cut? || exists w :: EndsBy(r.out, w))
  {
    SimulateExec(P, env, c, st, 0, ev);
    var out := R.Exec(P, env, c, st, ev).out;
    assert out.Normal? ==> EndsBy(out, Finishes);
    assert out.Broke? ==> EndsBy(out, Breaks);
    assert out.Continued? ==> EndsBy(out, Continues);
    assert out.Returned? || out.Jump? ==> EndsBy(out, Exits);
  }

  lemma {:induction false} WaysSound(P: R.Program, env: R.Env, c: R.Code, st: R.State, ev: seq<R.Event>, w: Way)
    requires Ordinary(env, st, ev) && EndsBy(R.Exec(P, env, c, st, ev).out, w)
    ensures Can(c, w)
    decreases |ev|, c, 1
  {
    hide Ordinary;
    match c
    case Seq(_, _) => PairSound(P, env, c, st, ev, w);
    case Resume(_, _) => PairSound(P, env, c, st, ev, w);
    case If(_, _, _) => ChoiceSound(P, env, c, st, ev, w);
    case While(_, _) => ChoiceSound(P, env, c, st, ev, w);
    case Block(at, open, body) =>
      BlockOpens(env, at, open, st, ev);
      WaysSound(P, env, body, R.AfterItems(env, open, R.Log(st, R.Did(at)), ev).st, ev, w);
    case Stmt(_, _, _) =>
    case _ =>
  }

  lemma PairSound(P: R.Program, env: R.Env, c: R.Code, st: R.State, ev: seq<R.Event>, w: Way)
    requires c.Seq? || c.Resume?
    requires Ordinary(env, st, ev) && EndsBy(R.Exec(P, env, c, st, ev).out, w)
    ensures Can(c, w)
    decreases |ev|, c, 0
  {
    hide Ordinary;
    var a, b := if c.Seq? then c.first else c.rest, if c.Seq? then c.second else c.loop;
    var r := R.Exec(P, env, a, st, ev);
    OrdinaryOn(P, env, a, st, ev);
    if r.out.Normal? || (c.Resume? && r.out.Continued?) {
      WaysSound(P, env, a, st, ev, if r.out.Normal? then Finishes else Continues);
      WaysSound(P, env, b, r.st, r.rest, w);
    } else {
      WaysSound(P, env, a, st, ev, if c.Resume? && r.out.Broke? then Breaks else w);
    }
  }

  lemma ChoiceSound(P: R.Program, env: R.Env, c: R.Code, st: R.State, ev: seq<R.Event>, w: Way)
    requires c.If? || c.While?
    requires Ordinary(env, st, ev) && EndsBy(R.Exec(P, env, c, st, ev).out, w)
    ensures Can(c, w)
    decreases |ev|, c, 0
  {
    hide Ordinary;
    TakesAnArm(env, st, ev);
    if c.If? {
      WaysSound(P, env, if ev[0].branch then c.yes else c.no, st, ev[1..], w);
    } else if ev[0].branch {
      var r := R.Exec(P, env, c.body, st, ev[1..]);
      OrdinaryOn(P, env, c.body, st, ev[1..]);
      if r.out.Normal? || r.out.Continued? {
        WaysSound(P, env, c, r.st, r.rest, w);
      } else if !r.out.Broke? {
        WaysSound(P, env, c.body, st, ev[1..], w);
      }
    }
  }

  lemma BlockOpens(env: R.Env, at: nat, open: seq<R.Item>, st: R.State, ev: seq<R.Event>)
    requires Ordinary(env, st, ev)
    ensures var entered := R.AfterItems(env, open, R.Log(st, R.Did(at)), ev);
            entered.out.Normal? && entered.rest == ev && Ordinary(env, entered.st, ev) && !st.hf
  {
    ItemsAreSilent(env, open, st.mask);
  }

  lemma TakesAnArm(env: R.Env, st: R.State, ev: seq<R.Event>)
    requires Ordinary(env, st, ev)
    ensures ev != [] ==> Ordinary(env, st, ev[1..]) && !ev[0].TookFaulting? && !ev[0].Fault?
  {
    if ev != [] {
      assert ev[0] in ev;
    }
  }

  /** Events that make code end in a given way. */
  function Course(c: R.Code, w: Way): seq<R.Event>
    requires Can(c, w)
  {
    match c
    case Stmt(_, _, _) => [R.Done]
    case Goto(_) => [R.Jumped]
    case Seq(a, b) =>
      if !w.Finishes? && Can(a, w) then Course(a, w) else Course(a, Finishes) + Course(b, w)
    case Block(_, _, body) => Course(body, w)
    case If(_, a, b) => if Can(a, w) then [R.Took(true)] + Course(a, w) else [R.Took(false)] + Course(b, w)
    case While(_, body) => if w.Finishes? then [R.Took(false)] else [R.Took(true)] + Course(body, w)
    case Resume(rest, loop) =>
      if w.Finishes? && Can(rest, Breaks) then Course(rest, Breaks)
      else if w.Exits? && Can(rest, w) then Course(rest, w)
      else Course(rest, if Can(rest, Finishes) then Finishes else Continues) + Course(loop, w)
    case _ => []
  }

  lemma {:induction false} CourseFaultFree(c: R.Code, w: Way)
    requires Can(c, w)
    ensures FaultFree(Course(c, w))
  {
    match c
    case Seq(a, b) =>
      if !w.Finishes? && Can(a, w) {
        CourseFaultFree(a, w);
      } else {
        CourseFaultFree(a, Finishes);
        CourseFaultFree(b, w);
      }
    case Block(_, _, body) => CourseFaultFree(body, w);
    case If(_, a, b) => CourseFaultFree(if Can(a, w) then a else b, w);
    case While(_, body) => if w.Exits? { CourseFaultFree(body, w); }
    case Resume(rest, loop) =>
      if w.Finishes? && Can(rest, Breaks) {
        CourseFaultFree(rest, Breaks);
      } else if w.Exits? && Can(rest, w) {
        CourseFaultFree(rest, w);
      } else {
        CourseFaultFree(rest, if Can(rest, Finishes) then Finishes else Continues);
        CourseFaultFree(loop, w);
      }
    case _ =>
  }

  /** Code can do whatever `Can` says, from any state and whatever comes after it. */
  lemma {:induction false} CourseWorks(env: R.Env, c: R.Code, st: R.State, w: Way, rest: seq<R.Event>)
    requires Can(c, w) && env.check >= 0 && !st.hf
    ensures var r := R.Exec([], env, c, st, Course(c, w) + rest);
            EndsBy(r.out, w) && r.rest == rest && !r.st.hf
    decreases c, 1
  {
    var ev := Course(c, w) + rest;
    match c
    case Seq(_, _) => PairCourse(env, c, st, w, rest);
    case Resume(_, _) => PairCourse(env, c, st, w, rest);
    case If(_, _, _) => ChoiceCourse(env, c, st, w, rest);
    case While(_, _) => ChoiceCourse(env, c, st, w, rest);
    case Block(at, open, body) =>
      ItemsAreSilent(env, open, st.mask);
      CourseWorks(env, body, R.AfterItems(env, open, R.Log(st, R.Did(at)), ev).st, w, rest);
    case Stmt(at, _, after) =>
      ItemsAreSilent(env, after, st.mask);
      assert ev[1..] == rest;
    case Goto(_) => assert ev[1..] == rest;
    case _ => assert ev == rest;
  }

  lemma ChoiceCourse(env: R.Env, c: R.Code, st: R.State, w: Way, rest: seq<R.Event>)
    requires c.If? || c.While?
    requires Can(c, w) && env.check >= 0 && !st.hf
    ensures var r := R.Exec([], env, c, st, Course(c, w) + rest);
            EndsBy(r.out, w) && r.rest == rest && !r.st.hf
    decreases c, 0
  {
    var ev := Course(c, w) + rest;
    if c.If? {
      var arm := if Can(c.yes, w) then c.yes else c.no;
      CourseWorks(env, arm, st, w, rest);
      assert ev[0] == R.Took(Can(c.yes, w)) && ev[1..] == Course(arm, w) + rest;
      assert R.Exec([], env, c, st, ev) == R.Exec([], env, arm, st, ev[1..]);
    } else if w.Finishes? {
      assert ev[0] == R.Took(false) && ev[1..] == rest;
    } else {
      CourseWorks(env, c.body, st, w, rest);
      assert ev[0] == R.Took(true) && ev[1..] == Course(c.body, w) + rest;
      assert R.Exec([], env, c, st, ev)
          == R.AfterIteration([], env, c, R.Exec([], env, c.body, st, ev[1..]));
    }
  }

  lemma PairCourse(env: R.Env, c: R.Code, st: R.State, w: Way, rest: seq<R.Event>)
    requires c.Seq? || c.Resume?
    requires Can(c, w) && env.check >= 0 && !st.hf
    ensures var r := R.Exec([], env, c, st, Course(c, w) + rest);
            EndsBy(r.out, w) && r.rest == rest && !r.st.hf
    decreases c, 0
  {
    var ev := Course(c, w) + rest;
    var a, b := if c.Seq? then c.first else c.rest, if c.Seq? then c.second else c.loop;
    if c.Seq? && !w.Finishes? && Can(a, w) {
      CourseWorks(env, a, st, w, rest);
    } else if c.Resume? && w.Finishes? && Can(a, Breaks) {
      CourseWorks(env, a, st, Breaks, rest);
    } else if c.Resume? && w.Exits? && Can(a, w) {
      CourseWorks(env, a, st, w, rest);
    } else {
      var on := if c.Seq? || Can(a, Finishes) then Finishes else Continues;
      assert ev == Course(a, on) + (Course(b, w) + rest);
      CourseWorks(env, a, st, on, Course(b, w) + rest);
      CourseWorks(env, b, R.Exec([], env, a, st, ev).st, w, rest);
    }
  }

  lemma {:induction false} SomeWay(c: R.Code)
    ensures exists w :: Can(c, w)
  {
    match c
    case Seq(a, b) =>
      SomeWay(a);
      SomeWay(b);
      var v :| Can(a, v);
      var w :| Can(b, w);
      assert Can(c, if v.Finishes? then w else v);
    case Block(_, _, body) =>
      SomeWay(body);
      var w :| Can(body, w);
      assert Can(c, w);
    case If(_, a, _) =>
      SomeWay(a);
      var w :| Can(a, w);
      assert Can(c, w);
    case While(_, _) => assert Can(c, Finishes);
    case Resume(rest, loop) =>
      SomeWay(rest);
      SomeWay(loop);
      var v :| Can(rest, v);
      var w :| Can(loop, w);
      assert Can(c, if v.Breaks? then Finishes else if v.Exits? then v else w);
    case Break => assert Can(c, Breaks);
    case Continue => assert Can(c, Continues);
    case Return(_) => assert Can(c, Exits);
    case Goto(_) => assert Can(c, Exits);
    case _ => assert Can(c, Finishes);
  }

  // ----- going through a list of statements -----

  function Code(s: Stmt, callees: map<string, nat>): R.Code {
    Emit(s, map[], callees)
  }

  function CodeOf(ss: seq<Stmt>, callees: map<string, nat>): R.Code {
    EmitAll(ss, map[], callees)
  }

  /** The statements, behind their labels, that a run from the first one goes through. */
  function Walked(P: R.Program, env: R.Env, ss: seq<Stmt>, callees: map<string, nat>, st: R.State, ev: seq<R.Event>)
    : seq<Stmt>
    decreases ss
  {
    if ss == [] then []
    else
      var r := R.Exec(P, env, Code(ss[0], callees), st, ev);
      [Core(ss[0])] + if r.out.Normal? then Walked(P, env, ss[1..], callees, r.st, r.rest) else []
  }

  /** A run that comes to an end. */
  ghost predicate Ended(P: R.Program, env: R.Env, c: R.Code, st: R.State, ev: seq<R.Event>) {
    Ordinary(env, st, ev) && !R.Exec(P, env, c, st, ev).out.Cut?
  }

  /** Every run of the statement goes on behind it. */
  predicate OnlyFinishes(s: Stmt) {
    var c := Code(s, map[]);
    !Can(c, Breaks) && !Can(c, Continues) && !Can(c, Exits)
  }

  /** Nothing leaves the list but its last statement or a return without a label. */
  predicate Steady(ss: seq<Stmt>) {
    |ss| > 1 && !ss[0].kind.Return? ==> OnlyFinishes(ss[0]) && Steady(ss[1..])
  }

  lemma {:induction false} CanAlike(s: Stmt, callees: map<string, nat>, w: Way)
    ensures Can(Code(s, callees), w) <==> Can(Code(s, map[]), w)
    decreases s, 1
  {
    match s.kind
    case Compound(_) => CanAlikeAll(s.kids, callees, w);
    case Labelled => CanAlikeAll(s.kids, callees, w);
    case IfStmt(_) =>
      if |s.kids| >= 2 {
        CanAlike(s.kids[1], callees, w);
        if |s.kids| > 2 {
          CanAlike(s.kids[2], callees, w);
        }
      }
    case ForStmt(_) => if s.kids != [] { CanAlike(s.kids[|s.kids|-1], callees, w); }
    case WhileStmt(_) => if s.kids != [] { CanAlike(s.kids[|s.kids|-1], callees, w); }
    case _ =>
  }

  lemma {:induction false} CanAlikeAll(ss: seq<Stmt>, callees: map<string, nat>, w: Way)
    ensures Can(CodeOf(ss, callees), w) <==> Can(CodeOf(ss, map[]), w)
    decreases ss, 0
  {
    if ss != [] {
      CanAlike(ss[0], callees, w);
      CanAlike(ss[0], callees, Finishes);
      CanAlikeAll(ss[1..], callees, w);
    }
  }

  lemma WalkStep(P: R.Program, env: R.Env, ss: seq<Stmt>, callees: map<string, nat>, st: R.State, ev: seq<R.Event>)
    requires ss != []
    ensures var r := R.Exec(P, env, Code(ss[0], callees), st, ev);
            R.Exec(P, env, CodeOf(ss, callees), st, ev)
            == if r.out.Normal? then R.Exec(P, env, CodeOf(ss[1..], callees), r.st, r.rest) else r
  {
  }

  lemma {:induction false} SteadyWalk(P: R.Program, env: R.Env, ss: seq<Stmt>, callees: map<string, nat>, st: R.State,
                                      ev: seq<R.Event>)
    requires Steady(ss) && Ended(P, env, CodeOf(ss, callees), st, ev)
    ensures Walked(P, env, ss, callees, st, ev) == Cores(UpToReturn(ss))
    decreases ss
  {
    hide Ordinary, Can, Emit, EmitAll;
    if ss != [] {
      var r := R.Exec(P, env, Code(ss[0], callees), st, ev);
      WalkStep(P, env, ss, callees, st, ev);
      OrdinaryOn(P, env, Code(ss[0], callees), st, ev);
      if ss[0].kind.Return? {
        ReturnLeaves(P, env, ss[0], callees, st, ev);
        assert [ss[0]][1..] == [];
      } else if |ss| == 1 {
        assert ss[1..] == [] && [ss[0]][1..] == [] && UpToReturn(ss) == [ss[0]] + [];
      } else {
        var w :| EndsBy(r.out, w);
        WaysSound(P, env, Code(ss[0], callees), st, ev, w);
        CanAlike(ss[0], callees, w);
        assert w == Finishes;
        SteadyWalk(P, env, ss[1..], callees, r.st, r.rest);
        var up := UpToReturn(ss[1..]);
        assert ([ss[0]] + up)[1..] == up;
      }
    }
  }

  lemma ReturnLeaves(P: R.Program, env: R.Env, s: Stmt, callees: map<string, nat>, st: R.State, ev: seq<R.Event>)
    requires s.kind.Return?
    ensures R.Exec(P, env, Code(s, callees), st, ev).out.Returned?
  {
  }

  /** A run that leaves a list too early. */
  function EarlyLeave(ss: seq<Stmt>): seq<R.Event>
    requires !Steady(ss)
  {
    var c := Code(ss[0], map[]);
    if Can(c, Breaks) then Course(c, Breaks)
    else if Can(c, Continues) then Course(c, Continues)
    else if Can(c, Exits) then Course(c, Exits)
    else if Can(c, Finishes) then Course(c, Finishes) + EarlyLeave(ss[1..])
    else []
  }

  lemma {:induction false} EarlyLeaveWorks(env: R.Env, ss: seq<Stmt>, st: R.State)
    requires !Steady(ss) && env.check >= 0 && !st.hf
    ensures FaultFree(EarlyLeave(ss)) && Ended([], env, CodeOf(ss, map[]), st, EarlyLeave(ss))
    ensures |Walked([], env, ss, map[], st, EarlyLeave(ss))| < |UpToReturn(ss)|
    decreases ss
  {
    hide Can, Emit, EmitAll;
    var c, ev := Code(ss[0], map[]), EarlyLeave(ss);
    UpToReturnGrows(ss);
    WalkStep([], env, ss, map[], st, ev);
    if OnlyFinishes(ss[0]) {
      SomeWay(c);
      var w :| Can(c, w);
      assert w == Finishes;
      var rest := EarlyLeave(ss[1..]);
      CourseFaultFree(c, Finishes);
      CourseWorks(env, c, st, Finishes, rest);
      EarlyLeaveWorks(env, ss[1..], R.Exec([], env, c, st, ev).st);
    } else {
      var w := if Can(c, Breaks) then Breaks else if Can(c, Continues) then Continues else Exits;
      assert ev == Course(c, w) && ev + [] == ev;
      CourseFaultFree(c, w);
      CourseWorks(env, c, st, w, []);
    }
  }

  lemma UpToReturnGrows(ss: seq<Stmt>)
    requires |ss| > 1 && !ss[0].kind.Return?
    ensures |UpToReturn(ss)| == 1 + |UpToReturn(ss[1..])| && |UpToReturn(ss[1..])| >= 1
  {
  }

  /** Every run goes through the statements up to the first plain return, and only through them, exactly when nothing
      else leaves the list before its last statement. */
  lemma WalksAll(ss: seq<Stmt>)
    ensures (forall P, env, callees, st, ev :: Ended(P, env, CodeOf(ss, callees), st, ev) ==>
               Walked(P, env, ss, callees, st, ev) == Cores(UpToReturn(ss)))
            <==> Steady(ss)
  {
    if Steady(ss) {
      forall P, env, callees, st, ev | Ended(P, env, CodeOf(ss, callees), st, ev)
        ensures Walked(P, env, ss, callees, st, ev) == Cores(UpToReturn(ss))
      {
        SteadyWalk(P, env, ss, callees, st, ev);
      }
    } else {
      var env, st := R.Env(false, 0), R.State(false, 0, []);
      EarlyLeaveWorks(env, ss, st);
      CoresLength(UpToReturn(ss));
      assert Walked([], env, ss, map[], st, EarlyLeave(ss)) != Cores(UpToReturn(ss));
    }
  }

  // ----- entering the list at a label -----

  lemma {:induction false} NoLabelIn(s: Stmt, callees: map<string, nat>, l: nat)
    requires l != s.id && l !in Ids(s.kids)
    ensures R.FromLabel(Code(s, callees), l).None?
    decreases s, 1
  {
    hide Ids, FirstCallee, Behind;
    match s.kind
    case Compound(_) => NoLabelInAll(s.kids, callees, l);
    case Labelled => NoLabelInAll(s.kids, callees, l);
    case IfStmt(_) =>
      if |s.kids| >= 2 {
        KidHasIds(s.kids, 1);
        NoLabelIn(s.kids[1], callees, l);
        if |s.kids| > 2 {
          KidHasIds(s.kids, 2);
          NoLabelIn(s.kids[2], callees, l);
        }
      }
    case ForStmt(_) =>
      if s.kids != [] {
        KidHasIds(s.kids, |s.kids| - 1);
        NoLabelIn(s.kids[|s.kids|-1], callees, l);
      }
    case WhileStmt(_) =>
      if s.kids != [] {
        KidHasIds(s.kids, |s.kids| - 1);
        NoLabelIn(s.kids[|s.kids|-1], callees, l);
      }
    case _ =>
  }

  lemma {:induction false} NoLabelInAll(ss: seq<Stmt>, callees: map<string, nat>, l: nat)
    requires l !in Ids(ss)
    ensures R.FromLabel(CodeOf(ss, callees), l).None?
    decreases ss, 0
  {
    if ss != [] {
      NoLabelIn(ss[0], callees, l);
      NoLabelInAll(ss[1..], callees, l);
    }
  }

  lemma {:induction false} KidHasIds(kids: seq<Stmt>, i: nat)
    requires i < |kids|
    ensures kids[i].id in Ids(kids) && Ids(kids[i].kids) <= Ids(kids)
  {
    if i > 0 {
      KidHasIds(kids[1..], i - 1);
    }
  }

  /** What remains to be run when a goto lands on a label among the siblings. */
  function FromTheLabel(siblings: seq<Stmt>, target: nat, callees: map<string, nat>): R.Code {
    match R.FromLabel(CodeOf(siblings, callees), target)
    case Some(c) => c
    case None => R.Skip
  }

  /** The label of the goto stands before one of the siblings. */
  predicate HasTarget(siblings: seq<Stmt>, target: nat) {
    From(siblings, target) != [] && From(siblings, target)[0].kind.Labelled?
  }

  lemma {:induction false} EntersThere(P: R.Program, env: R.Env, siblings: seq<Stmt>, target: nat,
                                       callees: map<string, nat>, st: R.State, ev: seq<R.Event>)
    requires Unique(siblings) && HasTarget(siblings, target)
    ensures R.FromLabel(CodeOf(siblings, callees), target).Some?
    ensures R.Exec(P, env, FromTheLabel(siblings, target, callees), st, ev)
            == R.Exec(P, env, CodeOf(From(siblings, target), callees), st, ev)
  {
    var s := siblings[0];
    if s.id == target {
      LandsOnLabel(P, env, s, siblings[1..], callees, st, ev);
    } else {
      FromIsInside(siblings[1..], target);
      NoLabelIn(s, callees, target);
      EntersThere(P, env, siblings[1..], target, callees, st, ev);
    }
  }

  lemma LandsOnLabel(P: R.Program, env: R.Env, s: Stmt, rest: seq<Stmt>, callees: map<string, nat>, st: R.State,
                     ev: seq<R.Event>)
    requires s.kind.Labelled?
    ensures var c := R.Seq(R.Seq(R.Skip, CodeOf(s.kids, callees)), CodeOf(rest, callees));
            && R.FromLabel(R.Seq(Code(s, callees), CodeOf(rest, callees)), s.id) == Some(c)
            && R.Exec(P, env, c, st, ev) == R.Exec(P, env, R.Seq(Code(s, callees), CodeOf(rest, callees)), st, ev)
  {
    var kids := CodeOf(s.kids, callees);
    assert Code(s, callees) == R.Seq(R.Label(s.id), kids);
    assert R.FromLabel(Code(s, callees), s.id) == Some(R.Seq(R.Skip, kids));
    assert R.Exec(P, env, R.Seq(R.Skip, kids), st, ev) == R.Exec(P, env, kids, st, ev);
    assert R.Exec(P, env, Code(s, callees), st, ev) == R.Exec(P, env, kids, st, ev);
  }

  lemma {:induction false} FromIsInside(siblings: seq<Stmt>, target: nat)
    requires From(siblings, target) != []
    ensures target in Ids(siblings)
  {
    if siblings[0].id != target {
      FromIsInside(siblings[1..], target);
    }
  }

  /** The statements that a run from the label goes through. */
  function Reached(P: R.Program, env: R.Env, siblings: seq<Stmt>, target: nat, callees: map<string, nat>, st: R.State,
                   ev: seq<R.Event>): seq<Stmt>
  {
    Walked(P, env, From(siblings, target), callees, st, ev)
  }

  /** `goto` and the list collected for it. Every run from the label that comes to an end goes through exactly the
      statements collected, if and only if no statement of the list but the last one and a return without a label can
      leave it: no nested return, goto, break or continue, and no return behind a label. */
  lemma GotoResolution(siblings: seq<Stmt>, target: nat)
    requires Unique(siblings) && HasTarget(siblings, target)
    ensures (forall P, env, callees, st, ev :: Ended(P, env, FromTheLabel(siblings, target, callees), st, ev) ==>
               Reached(P, env, siblings, target, callees, st, ev) == Collected(siblings, target))
            <==> Steady(From(siblings, target))
  {
    hide Steady, Collected, Ordinary;
    var ss := From(siblings, target);
    WalksAll(ss);
    forall P, env, callees, st, ev
      ensures Ended(P, env, FromTheLabel(siblings, target, callees), st, ev)
              <==> Ended(P, env, CodeOf(ss, callees), st, ev)
    {
      EntersThere(P, env, siblings, target, callees, st, ev);
    }
    CollectedIs(siblings, target);
    assert forall P, env, callees, st, ev :: Reached(P, env, siblings, target, callees, st, ev)
                                             == Walked(P, env, ss, callees, st, ev);
  }

  lemma CollectedIs(siblings: seq<Stmt>, target: nat)
    ensures Collected(siblings, target) == Cores(UpToReturn(From(siblings, target)))
  {
  }

  // ----- what is logged -----

  /** A step or a return, with or without labels. */
  predicate Simple(s: Stmt) {
    if s.kind.Labelled? then |s.kids| == 1 && Simple(s.kids[0])
    else !s.kind.Compound? && !IsConditional(s) && !s.kind.Goto? && !s.kind.Break? && !s.kind.Continue?
  }

  function LogOf(s: Stmt): R.Obs {
    if s.kind.Return? then R.Result(s.id) else R.Did(s.at)
  }

  function LogsOf(ss: seq<Stmt>): seq<R.Obs> {
    if ss == [] then [] else [LogOf(ss[0])] + LogsOf(ss[1..])
  }

  lemma {:induction false} NoCallee(ss: seq<Stmt>)
    ensures FirstCallee(ss, map[]) == None
  {
    if ss != [] {
      NoCallee(ss[1..]);
    }
  }

  lemma {:induction false} SimpleLogs(P: R.Program, env: R.Env, s: Stmt, st: R.State, ev: seq<R.Event>)
    requires Simple(s) && Ended(P, env, Code(s, map[]), st, ev)
    ensures R.Exec(P, env, Code(s, map[]), st, ev).st.trace == st.trace + [LogOf(Core(s))]
  {
    if s.kind.Labelled? {
      var kid := s.kids[0];
      assert s.kids[1..] == [];
      LabelIsSilent(P, env, s, st, ev);
      SimpleLogs(P, env, kid, st, ev);
    } else if !s.kind.Return? {
      NoCallee([s] + Below(s));
      ItemsAreSilent(env, Behind(map[], s.at), st.mask);
      if ev != [] {
        assert ev[0] in ev;
      }
    }
  }

  lemma OneCode(ss: seq<Stmt>, callees: map<string, nat>)
    requires |ss| == 1
    ensures CodeOf(ss, callees) == R.Seq(Code(ss[0], callees), R.Skip)
  {
    hide Emit;
    assert ss[1..] == [];
    assert EmitAll([], map[], callees) == R.Skip;
  }

  lemma LabelIsSilent(P: R.Program, env: R.Env, s: Stmt, st: R.State, ev: seq<R.Event>)
    requires s.kind.Labelled? && |s.kids| == 1
    ensures R.Exec(P, env, Code(s, map[]), st, ev) == R.Exec(P, env, Code(s.kids[0], map[]), st, ev)
  {
    var kid := Code(s.kids[0], map[]);
    OneCode(s.kids, map[]);
    assert Code(s, map[]) == R.Seq(R.Label(s.id), R.Seq(kid, R.Skip));
    assert R.Exec(P, env, R.Seq(kid, R.Skip), st, ev) == R.Exec(P, env, kid, st, ev);
  }

  lemma LogsCons(s: Stmt, more: seq<Stmt>)
    ensures LogsOf([s] + more) == [LogOf(s)] + LogsOf(more)
  {
    assert ([s] + more)[1..] == more;
  }

  lemma WalkedStep(P: R.Program, env: R.Env, ss: seq<Stmt>, callees: map<string, nat>, st: R.State, ev: seq<R.Event>)
    requires ss != []
    ensures var r := R.Exec(P, env, Code(ss[0], callees), st, ev);
            Walked(P, env, ss, callees, st, ev)
            == [Core(ss[0])] + if r.out.Normal? then Walked(P, env, ss[1..], callees, r.st, r.rest) else []
  {
  }

  /** In a list of simple statements, what a run goes through is what it logs. */
  lemma {:induction false} WalkedIsLogged(P: R.Program, env: R.Env, ss: seq<Stmt>, st: R.State, ev: seq<R.Event>)
    requires (forall i :: 0 <= i < |ss| ==> Simple(ss[i])) && Ended(P, env, CodeOf(ss, map[]), st, ev)
    ensures R.Exec(P, env, CodeOf(ss, map[]), st, ev).st.trace == st.trace + LogsOf(Walked(P, env, ss, map[], st, ev))
    decreases ss
  {
    hide Ordinary, Emit, EmitAll, Simple, LogOf, Core, Walked, LogsOf, R.Exec;
    if ss == [] {
      WalkedNothing(P, env, st, ev);
    } else {
      var r := R.Exec(P, env, Code(ss[0], map[]), st, ev);
      WalkStep(P, env, ss, map[], st, ev);
      WalkedStep(P, env, ss, map[], st, ev);
      OrdinaryOn(P, env, Code(ss[0], map[]), st, ev);
      SimpleLogs(P, env, ss[0], st, ev);
      var more := if r.out.Normal? then Walked(P, env, ss[1..], map[], r.st, r.rest) else [];
      LogsCons(Core(ss[0]), more);
      if r.out.Normal? {
        WalkedIsLogged(P, env, ss[1..], r.st, r.rest);
      } else {
        assert LogsOf([]) == [] by { LogsNothing(); }
      }
      assert st.trace + [LogOf(Core(ss[0]))] + LogsOf(more) == st.trace + ([LogOf(Core(ss[0]))] + LogsOf(more));
    }
  }

  lemma LogsNothing()
    ensures LogsOf([]) == []
  {
  }

  lemma WalkedNothing(P: R.Program, env: R.Env, st: R.State, ev: seq<R.Event>)
    ensures R.Exec(P, env, CodeOf([], map[]), st, ev).st.trace == st.trace + LogsOf(Walked(P, env, [], map[], st, ev))
  {
    assert st.trace + [] == st.trace;
  }

  // ----- lists that are left early -----

  function Sample(id: nat, kind: Kind, kids: seq<Stmt>): Stmt {
    Stmt(id, kind, "", "", false, true, 0, id, 0, 0, false, kids)
  }

  /** `out: return; next;` */
  function LabelledReturn(): seq<Stmt> {
    [Sample(1, Labelled, [Sample(2, Return(None), [])]), Sample(3, Other, [])]
  }

  /** A return behind a label does not end the collection: the statement behind it is collected, and no run from the
      label ever goes through it. */
  lemma LabelledReturnOvershoots()
    ensures var ss := LabelledReturn();
            && Unique(ss) && HasTarget(ss, 1) && ss[1] in Collected(ss, 1)
            && forall P, env, callees, st, ev :: Ended(P, env, FromTheLabel(ss, 1, callees), st, ev) ==>
                 Reached(P, env, ss, 1, callees, st, ev) == [ss[0].kids[0]]
  {
    hide LabelledReturn, Walked, R.Exec, Code, CodeOf;
    var ss := LabelledReturn();
    LabelledIs(ss);
    forall P, env, callees, st, ev | Ended(P, env, FromTheLabel(ss, 1, callees), st, ev)
      ensures Reached(P, env, ss, 1, callees, st, ev) == [ss[0].kids[0]]
    {
      LabelledLeaves(P, env, ss[0], callees, st, ev);
      WalkedStep(P, env, ss, callees, st, ev);
    }
  }

  lemma LabelledIs(ss: seq<Stmt>)
    requires ss == LabelledReturn()
    ensures |ss| == 2 && |ss[0].kids| == 1 && Unique(ss) && HasTarget(ss, 1) && From(ss, 1) == ss
    ensures ss[1] in Collected(ss, 1) && Core(ss[0]) == ss[0].kids[0]
    ensures ss[0].kind.Labelled? && ss[0].kids[0].kind.Return?
  {
    assert ss[1..][1..] == [] && ss[0].kids[1..] == [];
    assert UpToReturn(ss[1..]) == [ss[1]] && UpToReturn(ss) == [ss[0]] + [ss[1]];
    CoreAt(UpToReturn(ss), 1);
  }

  lemma LabelledLeaves(P: R.Program, env: R.Env, s: Stmt, callees: map<string, nat>, st: R.State, ev: seq<R.Event>)
    requires s.kind.Labelled? && |s.kids| == 1 && s.kids[0].kind.Return?
    ensures R.Exec(P, env, Code(s, callees), st, ev).out.Returned?
  {
    var ret := Code(s.kids[0], callees);
    OneCode(s.kids, callees);
    ReturnLeaves(P, env, s.kids[0], callees, st, ev);
    assert R.Exec(P, env, R.Seq(ret, R.Skip), st, ev).out.Returned?;
    assert Code(s, callees) == R.Seq(R.Label(s.id), R.Seq(ret, R.Skip));
  }

  /** `undo: a(); if (x) { return; } b(); return;` */
  function NestedReturn(): seq<Stmt> {
    [Sample(1, Labelled, [Sample(2, Other, [])]),
     Sample(3, IfStmt("x"), [Sample(4, Other, []), Sample(5, Compound(6), [Sample(7, Return(None), [])])]),
     Sample(8, Other, []), Sample(9, Return(None), [])]
  }

  /** A return inside a collected statement is passed over: b is collected, a run from the label leaves before it. */
  lemma NestedReturnIsPassedOver()
    ensures var ss, ev := NestedReturn(), [R.Done, R.Took(true)];
            var env, st := R.Env(false, 0), R.State(false, 0, []);
            var r := R.Exec([], env, FromTheLabel(ss, 1, map[]), st, ev);
            && Unique(ss) && HasTarget(ss, 1) && ss[2] in Collected(ss, 1)
            && Ordinary(env, st, ev) && r.out.Returned? && r.st.trace == [R.Did(2), R.Did(6), R.Result(7)]
            && Reached([], env, ss, 1, map[], st, ev) == [ss[0].kids[0], ss[1]]
  {
    var ss, ev := NestedReturn(), [R.Done, R.Took(true)];
    var env, st := R.Env(false, 0), R.State(false, 0, []);
    assert Ordinary(env, st, ev);
    assert |ss| == 4;
    hide Code, CodeOf, Emit, EmitAll, Walked, Unique, Collected, From, NestedReturn, R.Exec, FromTheLabel, HasTarget;
    hide Ordinary, Core;
    NestedUnique(ss);
    NestedCollected(ss);
    EntersThere([], env, ss, 1, map[], st, ev);
    NestedCode(ss);
    FirstStep(env, Code(ss[0], map[]));
    SecondStep(env, Code(ss[1], map[]));
    var st1 := R.State(false, 0, [R.Did(2)]);
    assert ev[1..] == [R.Took(true)];
    WalkStep([], env, ss, map[], st, ev);
    WalkStep([], env, ss[1..], map[], st1, ev[1..]);
    WalkedStep([], env, ss, map[], st, ev);
    WalkedStep([], env, ss[1..], map[], st1, ev[1..]);
  }

  lemma FirstStep(env: R.Env, c: R.Code)
    requires c == R.Seq(R.Label(1), R.Seq(R.Stmt(2, None, []), R.Skip))
    ensures R.Exec([], env, c, R.State(false, 0, []), [R.Done, R.Took(true)])
            == R.Res(R.Normal, R.State(false, 0, [R.Did(2)]), [R.Took(true)])
  {
    var st, st1, ev := R.State(false, 0, []), R.State(false, 0, [R.Did(2)]), [R.Done, R.Took(true)];
    assert ev[1..] == [R.Took(true)] && [] + [R.Did(2)] == [R.Did(2)];
    assert R.Exec([], env, R.Stmt(2, None, []), st, ev) == R.Res(R.Normal, st1, ev[1..]);
    assert R.Exec([], env, R.Seq(R.Stmt(2, None, []), R.Skip), st, ev) == R.Res(R.Normal, st1, ev[1..]);
  }

  lemma SecondStep(env: R.Env, c: R.Code)
    requires c == R.If(3, R.Block(6, [], R.Seq(R.Return(7), R.Skip)), R.Skip)
    ensures R.Exec([], env, c, R.State(false, 0, [R.Did(2)]), [R.Took(true)])
            == R.Res(R.Returned, R.State(false, 0, [R.Did(2), R.Did(6), R.Result(7)]), [])
  {
    var st1, st2 := R.State(false, 0, [R.Did(2)]), R.State(false, 0, [R.Did(2), R.Did(6)]);
    var st3 := R.State(false, 0, [R.Did(2), R.Did(6), R.Result(7)]);
    var ret := R.Seq(R.Return(7), R.Skip);
    assert R.Log(st1, R.Did(6)) == st2 && R.Log(st2, R.Result(7)) == st3;
    assert R.Exec([], env, ret, st2, []) == R.Res(R.Returned, st3, []);
    assert R.Exec([], env, R.Block(6, [], ret), st1, []) == R.Res(R.Returned, st3, []);
    assert [R.Took(true)][1..] == [];
  }

  lemma OneUnique(s: Stmt)
    requires Unique(s.kids) && s.id !in Ids(s.kids)
    ensures Unique([s]) && Ids([s]) == {s.id} + Ids(s.kids)
  {
    assert [s][1..] == [];
  }

  lemma OneMoreUnique(s: Stmt, rest: seq<Stmt>)
    requires Unique([s]) && Unique(rest) && Ids([s]) !! Ids(rest)
    ensures Unique([s] + rest) && Ids([s] + rest) == Ids([s]) + Ids(rest)
  {
    assert [s][1..] == [] && ([s] + rest)[1..] == rest;
  }

  lemma NestedUnique(ss: seq<Stmt>)
    requires ss == NestedReturn()
    ensures Unique(ss)
  {
    hide Unique, Ids;
    NothingUnique();
    var arm := ss[1].kids[1];
    OneUnique(ss[0].kids[0]);
    OneUnique(ss[0]);
    OneUnique(arm.kids[0]);
    OneUnique(arm);
    OneUnique(ss[1].kids[0]);
    OneMoreUnique(ss[1].kids[0], [arm]);
    assert ss[0].kids == [ss[0].kids[0]] && arm.kids == [arm.kids[0]] && ss[1].kids == [ss[1].kids[0]] + [arm];
    assert Ids(ss[1].kids) == {4, 5, 7};
    OneUnique(ss[1]);
    OneUnique(ss[2]);
    OneUnique(ss[3]);
    OneMoreUnique(ss[2], [ss[3]]);
    OneMoreUnique(ss[1], [ss[2]] + [ss[3]]);
    OneMoreUnique(ss[0], [ss[1]] + ([ss[2]] + [ss[3]]));
    assert ss == [ss[0]] + ([ss[1]] + ([ss[2]] + [ss[3]]));
  }

  lemma NothingUnique()
    ensures Unique([]) && Ids([]) == {}
  {
  }

  lemma NestedCollected(ss: seq<Stmt>)
    requires ss == NestedReturn()
    ensures HasTarget(ss, 1) && From(ss, 1) == ss && ss[2] in Collected(ss, 1)
    ensures Core(ss[0]) == ss[0].kids[0] && Core(ss[1]) == ss[1]
  {
    assert UpToReturn(ss[3..]) == [ss[3]];
    assert ss[2..][1..] == ss[3..] && UpToReturn(ss[2..]) == [ss[2]] + [ss[3]];
    assert ss[1..][1..] == ss[2..] && UpToReturn(ss[1..]) == [ss[1]] + ([ss[2]] + [ss[3]]);
    assert UpToReturn(ss) == [ss[0]] + ([ss[1]] + ([ss[2]] + [ss[3]]));
    CoreAt(UpToReturn(ss), 2);
  }

  lemma {:induction false} CoreAt(ss: seq<Stmt>, i: nat)
    requires i < |ss|
    ensures Core(ss[i]) in Cores(ss)
  {
    if i > 0 {
      CoreAt(ss[1..], i - 1);
    }
  }

  lemma NestedCode(ss: seq<Stmt>)
    requires ss == NestedReturn()
    ensures Code(ss[0], map[]) == R.Seq(R.Label(1), R.Seq(R.Stmt(2, None, []), R.Skip))
    ensures Code(ss[1], map[]) == R.If(3, R.Block(6, [], R.Seq(R.Return(7), R.Skip)), R.Skip)
  {
    var a, arm := ss[0].kids[0], ss[1].kids[1];
    assert ss[0].kids[1..] == [] && arm.kids[1..] == [];
    NoCallee([a] + Below(a));
    assert Code(a, map[]) == R.Stmt(2, None, []);
    assert CodeOf(ss[0].kids, map[]) == R.Seq(R.Stmt(2, None, []), R.Skip);
    assert Code(arm.kids[0], map[]) == R.Return(7);
    assert CodeOf(arm.kids, map[]) == R.Seq(R.Return(7), R.Skip);
    assert Code(arm, map[]) == R.Block(6, [], R.Seq(R.Return(7), R.Skip));
  }
}
