/** A statement that does nothing may be left out of a function body. */
module Padding {
  import opened Runtime

  /** d is c but for one empty statement somewhere along c's list of statements. */
  predicate Padded(c: Code, d: Code) {
    c == Seq(Skip, d) || (c.Seq? && d.Seq? && c.first == d.first && Padded(c.second, d.second))
  }

  predicate SameOrPadded(c: Code, d: Code) {
    c == d || Padded(c, d)
  }

  /** The bodies of the first program are those of the second one, or padded. */
  ghost predicate PaddedProgram(P: Program, Q: Program) {
    |P| == |Q| && forall f: nat :: f < |P| ==>
      SameOrPadded(P[f].body, Q[f].body) && P[f].closing == Q[f].closing && P[f].cleanup == Q[f].cleanup
  }

  lemma {:induction false} PaddedLabels(c: Code, d: Code, l: nat)
    requires SameOrPadded(c, d)
    ensures FromLabel(c, l).None? <==> FromLabel(d, l).None?
    ensures FromLabel(c, l).Some? ==> SameOrPadded(FromLabel(c, l).value, FromLabel(d, l).value)
  {
    if c != d && c != Seq(Skip, d) {
      PaddedLabels(c.second, d.second, l);
      match FromLabel(c.first, l)
      case Some(x) => assert SameOrPadded(Seq(x, c.second), Seq(x, d.second));
      case None =>
    }
  }

  lemma {:induction false} PaddedExec(P: Program, Q: Program, env: Env, c: Code, d: Code, st: State, ev: seq<Event>)
    requires PaddedProgram(P, Q) && SameOrPadded(c, d)
    ensures Exec(P, env, c, st, ev) == Exec(Q, env, d, st, ev)
    decreases |ev|, 0, c, 1
  {
    hide PaddedProgram;
    if c == Seq(Skip, d) {
      assert Exec(P, env, c, st, ev) == Exec(P, env, d, st, ev);
      PaddedExec(P, Q, env, d, d, st, ev);
    } else {
      match c
      case Seq(a, b) =>
        PaddedExec(P, Q, env, a, a, st, ev);
        var r := Exec(P, env, a, st, ev);
        if r.out.Normal? {
          PaddedExec(P, Q, env, b, d.second, r.st, r.rest);
        }
      case Block(at, open, body) =>
        var entered := AfterItems(env, open, if st.hf then st else Log(st, Did(at)), ev);
        PaddedExec(P, Q, env, body, body, entered.st, ev);
      case Resume(rest, loop) =>
        PaddedExec(P, Q, env, rest, rest, st, ev);
        var r := Exec(P, env, rest, st, ev);
        if r.out.Normal? || r.out.Continued? {
          PaddedExec(P, Q, env, loop, loop, r.st, r.rest);
        }
      case If(_, _, _) => PaddedChoice(P, Q, env, c, st, ev);
      case While(_, _) => PaddedChoice(P, Q, env, c, st, ev);
      case Stmt(_, _, _) => PaddedStmt(P, Q, env, c, st, ev);
      case _ =>
    }
  }

  lemma {:induction false} PaddedChoice(P: Program, Q: Program, env: Env, c: Code, st: State, ev: seq<Event>)
    requires PaddedProgram(P, Q) && (c.If? || c.While?)
    ensures Exec(P, env, c, st, ev) == Exec(Q, env, c, st, ev)
    decreases |ev|, 0, c, 0
  {
    hide PaddedProgram;
    if ev != [] && (ev[0].Took? || (ev[0].TookFaulting? && ev[0].test == c.test)) {
      var x := ev[0].branch;
      if c.If? {
        var st' := Decide(c.test, b => if b then c.yes else c.no, st, ev).value.1;
        PaddedExec(P, Q, env, if x then c.yes else c.no, if x then c.yes else c.no, st', ev[1..]);
      } else if x {
        var st' := Decide(c.test, b => if b then c.body else Skip, st, ev).value.1;
        PaddedExec(P, Q, env, c.body, c.body, st', ev[1..]);
        var r := Exec(P, env, c.body, st', ev[1..]);
        if r.out.Normal? || r.out.Continued? {
          PaddedExec(P, Q, env, c, c, r.st, r.rest);
        }
      }
    }
  }

  lemma {:induction false} PaddedStmt(P: Program, Q: Program, env: Env, c: Code, st: State, ev: seq<Event>)
    requires PaddedProgram(P, Q) && c.Stmt?
    ensures Exec(P, env, c, st, ev) == Exec(Q, env, c, st, ev)
    decreases |ev|, 0, c, 0
  {
    if ev != [] && ev[0].Done? && c.callee.Some? && c.callee.value < |P| {
      PaddedCall(P, Q, env, c.callee.value, st, ev[1..]);
    }
  }

  lemma {:induction false} PaddedCall(P: Program, Q: Program, env: Env, f: nat, st: State, ev: seq<Event>)
    requires PaddedProgram(P, Q) && f < |P|
    ensures Call(P, env, f, st, ev) == Call(Q, env, f, st, ev)
    decreases |ev|, 3
  {
    PaddedBody(P, Q, env, f, P[f].body, Q[f].body, Log(st.(mask := 0), Enter(f)), ev);
  }

  lemma {:induction false} PaddedBody(P: Program, Q: Program, env: Env, f: nat, c: Code, d: Code, st: State,
          ev: seq<Event>)
    requires PaddedProgram(P, Q) && f < |P| && SameOrPadded(c, d)
    ensures RunBody(P, env, f, c, st, ev) == RunBody(Q, env, f, d, st, ev)
    decreases |ev|, 2, c
  {
    PaddedExec(P, Q, env, c, d, st, ev);
    var r := Exec(P, env, c, st, ev);
    if r.out.Jump? {
      PaddedLabels(P[f].body, Q[f].body, r.out.target);
      match FromLabel(P[f].body, r.out.target)
      case None =>
      case Some(c') => PaddedBody(P, Q, env, f, c', FromLabel(Q[f].body, r.out.target).value, r.st, r.rest);
    }
  }
}
