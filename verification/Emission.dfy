/** What emitted code does, construct by construct, and where the cleanup block is entered without a fault. */
module Emission {
  import opened Basics
  import opened Tree
  import opened Jumps
  import opened Runtime
  import opened Stamps

  /** A conditional runs its first branch when its condition holds, and its second one, or nothing, when it does not. */
  lemma ConditionsChoose(P: Program, env: Env, s: Tree.Stmt, edits: map<nat, seq<Item>>, callees: map<string, nat>,
                         st: State, b: bool, ev: seq<Event>)
    requires s.kind.IfStmt? && |s.kids| >= 2
    ensures Exec(P, env, Emit(s, edits, callees), st, [Took(b)] + ev) ==
            if b then Exec(P, env, Emit(s.kids[1], edits, callees), st, ev)
            else if |s.kids| > 2 then Exec(P, env, Emit(s.kids[2], edits, callees), st, ev)
            else Res(Normal, st, ev)
  {
    hide Behind;
    var all := [Took(b)] + ev;
    assert all[1..] == ev && all[0] == Took(b);
  }

  /** A loop ends when its condition does not hold. Otherwise its body runs, which is its last child, and then the loop
      again; a break ends the loop, and a continue only the body. */
  lemma LoopsRepeat(P: Program, env: Env, s: Tree.Stmt, edits: map<nat, seq<Item>>, callees: map<string, nat>,
                    st: State, b: bool, ev: seq<Event>)
    requires (s.kind.ForStmt? || s.kind.WhileStmt?) && s.kids != []
    ensures var loop, body := Emit(s, edits, callees), Emit(s.kids[|s.kids|-1], edits, callees);
            Exec(P, env, loop, st, [Took(b)] + ev) ==
            if !b then Res(Normal, st, ev)
            else
              var r := Exec(P, env, body, st, ev);
              if r.out.Normal? || r.out.Continued? then Exec(P, env, loop, r.st, r.rest)
              else if r.out.Broke? then r.(out := Normal) else r
  {
    hide Behind;
    var all := [Took(b)] + ev;
    assert all[1..] == ev && all[0] == Took(b);
  }

  /** Statements that are neither made of others nor leave the one they stand in. */
  predicate IsPlain(s: Tree.Stmt) {
    s.kind.Call? || s.kind.Assign? || s.kind.Update? || s.kind.Unary? || s.kind.Decl? || s.kind.Other?
    || s.kind.IndirectCall?
  }

  predicate Calls(s: Tree.Stmt, callees: map<string, nat>) {
    s.kind.Call? && s.kind.fn in callees
  }

  lemma {:induction false} NoCall(ss: seq<Tree.Stmt>, callees: map<string, nat>)
    requires forall t :: t in ss ==> !Calls(t, callees)
    ensures FirstCallee(ss, callees) == None
  {
    if ss != [] {
      assert ss[0] in ss;
      NoCall(ss[1..], callees);
    }
  }

  lemma {:induction false} FirstCall(ss: seq<Tree.Stmt>, callees: map<string, nat>, i: nat)
    requires i < |ss| && Calls(ss[i], callees) && forall j :: 0 <= j < i ==> !Calls(ss[j], callees)
    ensures FirstCallee(ss, callees) == Some(callees[ss[i].kind.fn])
  {
    if i > 0 {
      assert !Calls(ss[0], callees);
      FirstCall(ss[1..], callees, i - 1);
    }
  }

  /** A plain statement without a call of an instrumented function logs its own location once it is done, or raises
      the flag without doing so, and then runs what has been inserted behind it. */
  lemma StatementsLog(P: Program, env: Env, s: Tree.Stmt, edits: map<nat, seq<Item>>, callees: map<string, nat>,
                      st: State, ev: seq<Event>)
    requires IsPlain(s) && forall t :: t in [s] + Below(s) ==> !Calls(t, callees)
    ensures Exec(P, env, Emit(s, edits, callees), st, [Done] + ev)
            == AfterItems(env, Behind(edits, s.at), Log(st, Did(s.at)), ev)
    ensures Exec(P, env, Emit(s, edits, callees), st, [Fault(s.at)] + ev)
            == AfterItems(env, Behind(edits, s.at), Log(st.(hf := true), Faulted(HasJump(Behind(edits, s.at)))), ev)
  {
    hide AfterItems;
    NoCall([s] + Below(s), callees);
    var done, fault := [Done] + ev, [Fault(s.at)] + ev;
    assert done[1..] == ev && done[0] == Done;
    assert fault[1..] == ev && fault[0] == Fault(s.at);
  }

  /** Otherwise the first of its calls of an instrumented function, in traversal order, is run, with its own mask. When
      that returns, the location is logged. When it comes back unwound, it is not, and the text inserted behind the
      statement runs with the flag up. */
  lemma StatementsCall(P: Program, env: Env, s: Tree.Stmt, edits: map<nat, seq<Item>>, callees: map<string, nat>,
                       st: State, ev: seq<Event>, i: nat)
    requires IsPlain(s) && i <= |Below(s)| && Calls(([s] + Below(s))[i], callees)
    requires forall j :: 0 <= j < i ==> !Calls(([s] + Below(s))[j], callees)
    requires callees[([s] + Below(s))[i].kind.fn] < |P|
    ensures var r := Runtime.Call(P, env, callees[([s] + Below(s))[i].kind.fn], st, ev);
            var after := Behind(edits, s.at);
            Exec(P, env, Emit(s, edits, callees), st, [Done] + ev) ==
            if r.out.Returned? then AfterItems(env, after, Log(r.st, Did(s.at)), r.rest)
            else if r.out.Unwinding? then
              AfterItems(env, after, if HasJump(after) then r.st else Log(r.st, Missed), r.rest)
            else r
  {
    hide AfterItems, Runtime.Call, Behind, HasJump;
    FirstCall([s] + Below(s), callees, i);
    var all := [Done] + ev;
    assert all[1..] == ev && all[0] == Done;
  }

  // ----- gotos -----

  /** d is c, or stands inside it. */
  predicate Part(c: Code, d: Code) {
    c == d ||
    match c
    case Seq(a, b) => Part(a, d) || Part(b, d)
    case Block(_, _, body) => Part(body, d)
    case If(_, a, b) => Part(a, d) || Part(b, d)
    case While(_, body) => Part(body, d)
    case _ => false
  }

  /** A goto finds every label of the function, also inside blocks, branches and loops. */
  lemma {:induction false} LabelsAreFound(c: Code, l: nat)
    ensures FromLabel(c, l).Some? <==> Part(c, Label(l))
  {
    match c
    case Seq(a, b) =>
      LabelsAreFound(a, l);
      LabelsAreFound(b, l);
    case Block(_, _, body) => LabelsAreFound(body, l);
    case If(_, a, b) =>
      LabelsAreFound(a, l);
      LabelsAreFound(b, l);
    case While(_, body) => LabelsAreFound(body, l);
    case _ =>
  }

  /** Where x runs from a label inside `a`, what follows `a` runs behind it. */
  lemma SequencesGoOn(P: Program, env: Env, a: Code, b: Code, l: nat, x: Code, st: State, ev: seq<Event>)
    requires FromLabel(a, l) == Some(x)
    ensures FromLabel(Seq(a, b), l).Some?
    ensures var r := Exec(P, env, x, st, ev);
            Exec(P, env, FromLabel(Seq(a, b), l).value, st, ev)
            == if r.out.Normal? then Exec(P, env, b, r.st, r.rest) else r
  {
  }

  /** A goto into the body of a loop runs the rest of that body, without asking the condition, and then the loop: again
      from its condition when the rest completes or continues, and no more when it breaks. */
  lemma LoopsAreReentered(P: Program, env: Env, test: nat, body: Code, l: nat, x: Code, st: State, ev: seq<Event>)
    requires FromLabel(body, l) == Some(x)
    ensures FromLabel(While(test, body), l).Some?
    ensures var r := Exec(P, env, x, st, ev);
            Exec(P, env, FromLabel(While(test, body), l).value, st, ev)
            == if r.out.Normal? || r.out.Continued? then Exec(P, env, While(test, body), r.st, r.rest)
               else if r.out.Broke? then r.(out := Normal) else r
  {
  }

  /** While `hecaton_global_check` is negative, nobody gets past the cleanup block: no run of a function falls off its
      end, and none reaches its last top-level return except by a goto or an early one. */
  lemma {:induction false} TopIsForced(P: Program, env: Env, kids: seq<Tree.Stmt>, k: nat, edits: map<nat, seq<Item>>,
                                       callees: map<string, nat>, st: State, ev: seq<Event>)
    requires env.check < 0
    ensures !Exec(P, env, EmitTop(kids, k, edits, callees), st, ev).out.Normal?
  {
    hide Emit, EmitAll;
    if kids != [] && k > 0 {
      var r := Exec(P, env, Emit(kids[0], edits, callees), st, ev);
      if r.out.Normal? {
        TopIsForced(P, env, kids[1..], k - 1, edits, callees, r.st, r.rest);
      }
    }
  }

  lemma NobodyGetsPast(P: Program, env: Env, body: Tree.Stmt, edits: map<nat, seq<Item>>, callees: map<string, nat>,
                       st: State, ev: seq<Event>)
    requires env.check < 0
    ensures !Exec(P, env, EmitBody(body, edits, callees), st, ev).out.Normal?
  {
    TopIsForced(P, env, body.kids, CleanupPlace(body.kids), edits, callees, st, ev);
  }
}
