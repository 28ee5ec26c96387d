/** Without a fault an instrumented program cannot be told from the program it was made from. */
module Refinement {
  import opened Basics
  import opened MaskWord
  import opened Runtime

  /** The code with everything Hecaton inserted taken out again. */
  function Erase(c: Code): Code {
    match c
    case Stmt(at, callee, _) => Stmt(at, callee, [])
    case Seq(a, b) => Seq(Erase(a), Erase(b))
    case Block(at, _, body) => Block(at, [], Erase(body))
    case If(test, a, b) => If(test, Erase(a), Erase(b))
    case While(test, body) => While(test, Erase(body))
    case Resume(rest, loop) => Resume(Erase(rest), Erase(loop))
    case Cleanup => Skip
    case _ => c
  }

  function EraseProgram(P: Program): Program {
    seq(|P|, i requires 0 <= i < |P| => Fn(Erase(P[i].body), false, []))
  }

  ghost predicate FaultFree(ev: seq<Event>) {
    forall e :: e in ev ==> !e.Fault? && !e.TookFaulting?
  }

  /** Same outcome, same observations, same events left over; only the mask may differ. */
  ghost predicate Indistinguishable(r: Res, s: Res) {
    && r.out == s.out && r.rest == s.rest && r.st.trace == s.st.trace
    && !r.st.hf && !s.st.hf
    && FaultFree(r.rest)
    && !r.out.ToCleanup? && !r.out.Unwinding? && !r.out.Rebooted?
  }

  lemma {:induction false} ItemsAreSilent(env: Env, items: seq<Item>, mask: bv64)
    ensures !RunItems(env, false, items, mask).0
  {
    if items != [] {
      match items[0]
      case Hgoto => ItemsAreSilent(env, items[1..], mask);
      case SetStamp(id) => ItemsAreSilent(env, items[1..], SetBit(mask, id));
      case UnsetStamp(id) => ItemsAreSilent(env, items[1..], UnsetBit(mask, id));
    }
  }

  lemma {:induction false} EraseFromLabel(c: Code, l: nat)
    ensures FromLabel(c, l).None? ==> FromLabel(Erase(c), l).None?
    ensures FromLabel(c, l).Some? ==> FromLabel(Erase(c), l) == Some(Erase(FromLabel(c, l).value))
  {
    match c
    case Seq(a, b) => EraseFromLabel(a, l); EraseFromLabel(b, l);
    case Block(_, _, body) => EraseFromLabel(body, l);
    case If(_, a, b) => EraseFromLabel(a, l); EraseFromLabel(b, l);
    case While(_, body) => EraseFromLabel(body, l);
    case _ =>
  }

  lemma {:induction false} SimulateExec(P: Program, env: Env, c: Code, st: State, m: bv64, ev: seq<Event>)
    requires env.check >= 0 && FaultFree(ev) && !st.hf
    ensures Indistinguishable(Exec(P, env, c, st, ev), Exec(EraseProgram(P), env, Erase(c), st.(mask := m), ev))
    decreases |ev|, 0, c, 1
  {
    var Q, st' := EraseProgram(P), st.(mask := m);
    match c
    case Seq(a, b) =>
      SimulateExec(P, env, a, st, m, ev);
      var r, s := Exec(P, env, a, st, ev), Exec(Q, env, Erase(a), st', ev);
      if r.out.Normal? {
        SimulateExec(P, env, b, r.st, s.st.mask, r.rest);
      }
    case Block(at, open, body) =>
      ItemsAreSilent(env, open, st.mask);
      SimulateExec(P, env, body, Log(st, Did(at)).(mask := RunItems(env, false, open, st.mask).1), m, ev);
    case If(_, a, b) => SimulateChoice(P, env, c, st, m, ev);
    case While(_, body) => SimulateChoice(P, env, c, st, m, ev);
    case Resume(rest, loop) =>
      SimulateExec(P, env, rest, st, m, ev);
      var r, s := Exec(P, env, rest, st, ev), Exec(Q, env, Erase(rest), st', ev);
      if r.out.Normal? || r.out.Continued? {
        SimulateExec(P, env, loop, r.st, s.st.mask, r.rest);
      }
    case Stmt(at, callee, after) => SimulateStmt(P, env, c, st, m, ev);
    case _ =>
  }

  lemma {:induction false} SimulateChoice(P: Program, env: Env, c: Code, st: State, m: bv64, ev: seq<Event>)
    requires c.If? || c.While?
    requires env.check >= 0 && FaultFree(ev) && !st.hf
    ensures Indistinguishable(Exec(P, env, c, st, ev), Exec(EraseProgram(P), env, Erase(c), st.(mask := m), ev))
    decreases |ev|, 0, c, 0
  {
    if ev != [] && ev[0].Took? {
      if c.If? {
        SimulateExec(P, env, if ev[0].branch then c.yes else c.no, st, m, ev[1..]);
      } else if ev[0].branch {
        SimulateExec(P, env, c.body, st, m, ev[1..]);
        SimulateIteration(P, env, c, Exec(P, env, c.body, st, ev[1..]),
                          Exec(EraseProgram(P), env, Erase(c.body), st.(mask := m), ev[1..]));
      }
    }
  }

  lemma {:induction false} SimulateStmt(P: Program, env: Env, c: Code, st: State, m: bv64, ev: seq<Event>)
    requires c.Stmt?
    requires env.check >= 0 && FaultFree(ev) && !st.hf
    ensures Indistinguishable(Exec(P, env, c, st, ev), Exec(EraseProgram(P), env, Erase(c), st.(mask := m), ev))
    decreases |ev|, 0, c, 0
  {
    if ev != [] && ev[0].Done? {
      if c.callee.Some? && c.callee.value < |P| {
        SimulateCall(P, env, c.callee.value, st, m, ev[1..]);
        ReturnSimulates(env, c, Call(P, env, c.callee.value, st, ev[1..]),
                        Call(EraseProgram(P), env, c.callee.value, st.(mask := m), ev[1..]));
      } else {
        ItemsAreSilent(env, c.after, st.mask);
      }
    }
  }

  lemma ReturnSimulates(env: Env, c: Code, r: Res, s: Res)
    requires c.Stmt? && Indistinguishable(r, s)
    ensures Indistinguishable(AfterCall(env, c, r), AfterCall(env, Erase(c), s))
  {
    ItemsAreSilent(env, c.after, r.st.mask);
  }

  lemma {:induction false} SimulateIteration(P: Program, env: Env, loop: Code, r: Res, s: Res)
    requires env.check >= 0 && Indistinguishable(r, s)
    ensures Indistinguishable(AfterIteration(P, env, loop, r), AfterIteration(EraseProgram(P), env, Erase(loop), s))
    decreases |r.rest|, 1, loop
  {
    if r.out.Normal? || r.out.Continued? {
      SimulateExec(P, env, loop, r.st, s.st.mask, r.rest);
    }
  }

  lemma {:induction false} SimulateCall(P: Program, env: Env, f: nat, st: State, m: bv64, ev: seq<Event>)
    requires f < |P| && env.check >= 0 && FaultFree(ev) && !st.hf
    ensures Indistinguishable(Call(P, env, f, st, ev), Call(EraseProgram(P), env, f, st.(mask := m), ev))
    decreases |ev|, 2
  {
    SimulateBody(P, env, f, P[f].body, Log(st.(mask := 0), Enter(f)), 0, ev);
  }

  lemma {:induction false} SimulateBody(P: Program, env: Env, f: nat, c: Code, st: State, m: bv64, ev: seq<Event>)
    requires f < |P| && env.check >= 0 && FaultFree(ev) && !st.hf
    ensures Indistinguishable(RunBody(P, env, f, c, st, ev),
                              RunBody(EraseProgram(P), env, f, Erase(c), st.(mask := m), ev))
    decreases |ev|, 1, c
  {
    SimulateExec(P, env, c, st, m, ev);
    var r, s := Exec(P, env, c, st, ev), Exec(EraseProgram(P), env, Erase(c), st.(mask := m), ev);
    if r.out.Jump? {
      EraseFromLabel(P[f].body, r.out.target);
      match FromLabel(P[f].body, r.out.target)
      case None =>
      case Some(c') => SimulateBody(P, env, f, c', r.st, s.st.mask, r.rest);
    }
  }

  function Run(P: Program, env: Env, f: nat, ev: seq<Event>): Res
    requires f < |P|
  {
    Call(P, env, f, State(false, 0, []), ev)
  }

  /** Every fault-free run, at whatever length it is observed and even inside interrupt context, makes the same
      observations and ends the same way as the run of the uninstrumented program on the same events. */
  lemma FaultFreeRefinement(P: Program, env: Env, f: nat, ev: seq<Event>)
    requires f < |P| && env.check >= 0 && FaultFree(ev)
    ensures var r, s := Run(P, env, f, ev), Run(EraseProgram(P), env, f, ev);
            r.out == s.out && r.st == s.st && r.rest == s.rest && (r.out.Returned? || r.out.Cut?)
  {
    SimulateCall(P, env, f, State(false, 0, []), 0, ev);
  }
}
