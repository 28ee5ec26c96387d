/** What instrumented functions do where the jump to the cleanup block is disabled, and where it is forced. */
module Interrupts {
  import opened MaskWord
  import opened Runtime
  import opened UnwindingTheorem

  // ----- interrupt context -----

  /** What was logged behind the first n observations undoes nothing, leaves no function early and restarts nothing. */
  ghost predicate NothingUndone(tr: seq<Obs>, n: nat) {
    forall i :: n <= i < |tr| ==> !tr[i].Undid? && !tr[i].Unwound? && !tr[i].Reboot? && !tr[i].Missed?
  }

  ghost predicate FaultBehind(tr: seq<Obs>, n: nat) {
    exists i :: n <= i < |tr| && tr[i].Faulted?
  }

  /** The run goes on as if nothing had happened, but for the flag: it is up if it was or a fault has struck. */
  ghost predicate RanOn(st: State, r: Res) {
    && !r.out.ToCleanup? && !r.out.Unwinding? && !r.out.Rebooted? && st.trace <= r.st.trace
    && NothingUndone(r.st.trace, |st.trace|) && (r.st.hf <==> st.hf || FaultBehind(r.st.trace, |st.trace|))
  }

  lemma RanOnThen(st: State, a: Res, r: Res)
    requires RanOn(st, a) && RanOn(a.st, r)
    ensures RanOn(st, r)
  {
    var tr, n := r.st.trace, |a.st.trace|;
    forall i | |st.trace| <= i < n ensures tr[i] == a.st.trace[i] {
    }
    if FaultBehind(a.st.trace, |st.trace|) {
      var i :| |st.trace| <= i < n && a.st.trace[i].Faulted?;
      assert tr[i].Faulted?;
    }
    if FaultBehind(tr, |st.trace|) {
      var i :| |st.trace| <= i < |tr| && tr[i].Faulted?;
      assert i < n ==> a.st.trace[i].Faulted?;
    }
  }

  lemma {:induction false} ItemsRunOn(env: Env, hf: bool, items: seq<Item>, mask: bv64)
    requires env.irq
    ensures !RunItems(env, hf, items, mask).0
  {
    hide SetBit, UnsetBit;
    if items != [] {
      match items[0]
      case Hgoto => ItemsRunOn(env, hf, items[1..], mask);
      case SetStamp(id) => ItemsRunOn(env, hf, items[1..], SetBit(mask, id));
      case UnsetStamp(id) => ItemsRunOn(env, hf, items[1..], UnsetBit(mask, id));
    }
  }

  lemma LogsOn(env: Env, items: seq<Item>, st: State, o: Obs, rest: seq<Event>)
    requires env.irq && (o.Did? || o.Enter? || o.Leave? || o.Result? || o.Faulted?)
    ensures RanOn(st, AfterItems(env, items, Log(st, o).(hf := st.hf || o.Faulted?), rest))
    ensures AfterItems(env, items, Log(st, o).(hf := st.hf || o.Faulted?), rest).out.Normal?
  {
    hide RunItems;
    var st' := Log(st, o).(hf := st.hf || o.Faulted?);
    ItemsRunOn(env, st'.hf, items, st.mask);
    assert st'.trace[|st.trace|] == o;
  }

  lemma {:induction false} ExecRunsOn(P: Program, env: Env, c: Code, st: State, ev: seq<Event>)
    requires env.irq && env.check >= 0
    ensures RanOn(st, Exec(P, env, c, st, ev))
    decreases |ev|, 1, c, 1
  {
    hide RanOn;
    NothingYet(st, Exec(P, env, c, st, ev));
    match c
    case Seq(a, b) =>
      var r := Exec(P, env, a, st, ev);
      ExecRunsOn(P, env, a, st, ev);
      if r.out.Normal? {
        ExecRunsOn(P, env, b, r.st, r.rest);
        RanOnThen(st, r, Exec(P, env, b, r.st, r.rest));
      }
    case Resume(rest, loop) =>
      var r := Exec(P, env, rest, st, ev);
      ExecRunsOn(P, env, rest, st, ev);
      if r.out.Normal? || r.out.Continued? {
        ExecRunsOn(P, env, loop, r.st, r.rest);
        RanOnThen(st, r, Exec(P, env, loop, r.st, r.rest));
      } else if r.out.Broke? {
        Renamed(st, r, Normal);
      }
    case Block(at, open, body) =>
      var entered := AfterItems(env, open, if st.hf then st else Log(st, Did(at)), ev);
      BlockRunsOn(env, at, open, st, ev);
      ExecRunsOn(P, env, body, entered.st, ev);
      RanOnThen(st, entered, Exec(P, env, body, entered.st, ev));
    case If(_, _, _) => ChoiceRunsOn(P, env, c, st, ev);
    case While(_, _) => ChoiceRunsOn(P, env, c, st, ev);
    case Stmt(_, _, _) => StmtRunsOn(P, env, c, st, ev);
    case Return(at) => LogsOn(env, [], st, Result(at), ev); Renamed(st, Res(Normal, Log(st, Result(at)), ev), Returned);
    case _ =>
  }

  lemma NothingYet(st: State, r: Res)
    ensures r.st == st && !r.out.ToCleanup? && !r.out.Unwinding? && !r.out.Rebooted? ==> RanOn(st, r)
  {
  }

  lemma Renamed(st: State, r: Res, out: Outcome)
    requires RanOn(st, r) && !out.ToCleanup? && !out.Unwinding? && !out.Rebooted?
    ensures RanOn(st, r.(out := out))
  {
  }

  lemma BlockRunsOn(env: Env, at: nat, open: seq<Item>, st: State, ev: seq<Event>)
    requires env.irq
    ensures var entered := AfterItems(env, open, if st.hf then st else Log(st, Did(at)), ev);
            entered.out.Normal? && RanOn(st, entered)
  {
    ItemsRunOn(env, st.hf, open, st.mask);
    if !st.hf {
      LogsOn(env, open, st, Did(at), ev);
    }
  }

  lemma {:induction false} ChoiceRunsOn(P: Program, env: Env, c: Code, st: State, ev: seq<Event>)
    requires (c.If? || c.While?) && env.irq && env.check >= 0
    ensures RanOn(st, Exec(P, env, c, st, ev))
    decreases |ev|, 1, c, 0
  {
    hide RanOn;
    NothingYet(st, Exec(P, env, c, st, ev));
    if ev != [] && (ev[0].Took? || (ev[0].TookFaulting? && ev[0].test == c.test)) {
      var arm := Arm(c, ev[0].branch);
      var st' := Decide(c.test, b => Arm(c, b), st, ev).value.1;
      TestRunsOn(env, c, st, st', ev);
      var r := Exec(P, env, arm, st', ev[1..]);
      ExecRunsOn(P, env, arm, st', ev[1..]);
      RanOnThen(st, Res(Normal, st', ev[1..]), r);
      if c.While? && ev[0].branch {
        if r.out.Normal? || r.out.Continued? {
          ExecRunsOn(P, env, c, r.st, r.rest);
          RanOnThen(st, r, Exec(P, env, c, r.st, r.rest));
        } else if r.out.Broke? {
          Renamed(st, r, Normal);
        }
      }
    }
  }

  lemma TestRunsOn(env: Env, c: Code, st: State, st': State, ev: seq<Event>)
    requires env.irq && (c.If? || c.While?) && ev != []
    requires Decide(c.test, b => Arm(c, b), st, ev).Some? && Decide(c.test, b => Arm(c, b), st, ev).value.1 == st'
    ensures RanOn(st, Res(Normal, st', ev[1..]))
  {
    if ev[0].TookFaulting? {
      LogsOn(env, [], st, Faulted(OpensWithJump(Arm(c, ev[0].branch))), ev[1..]);
    }
  }

  lemma {:induction false} StmtRunsOn(P: Program, env: Env, c: Code, st: State, ev: seq<Event>)
    requires c.Stmt? && env.irq && env.check >= 0
    ensures RanOn(st, Exec(P, env, c, st, ev))
    decreases |ev|, 0, c, 0
  {
    hide RanOn;
    NothingYet(st, Exec(P, env, c, st, ev));
    if ev != [] && ev[0] == Fault(c.at) {
      LogsOn(env, c.after, st, Faulted(HasJump(c.after)), ev[1..]);
    } else if ev != [] && ev[0].Done? {
      if c.callee.Some? && c.callee.value < |P| {
        var r := Call(P, env, c.callee.value, st, ev[1..]);
        CallRunsOn(P, env, c.callee.value, st, ev[1..]);
        if r.out.Returned? {
          LogsOn(env, c.after, r.st, Did(c.at), r.rest);
          RanOnThen(st, r, Exec(P, env, c, st, ev));
        }
      } else {
        LogsOn(env, c.after, st, Did(c.at), ev[1..]);
      }
    }
  }

  lemma {:induction false} BodyRunsOn(P: Program, env: Env, f: nat, c: Code, st: State, ev: seq<Event>)
    requires f < |P| && env.irq && env.check >= 0
    ensures RanOn(st, RunBody(P, env, f, c, st, ev))
    decreases |ev|, 2, c
  {
    hide RanOn;
    var r := Exec(P, env, c, st, ev);
    ExecRunsOn(P, env, c, st, ev);
    if r.out.Jump? {
      match FromLabel(P[f].body, r.out.target)
      case None => Renamed(st, r, Cut);
      case Some(c') =>
        BodyRunsOn(P, env, f, c', r.st, r.rest);
        RanOnThen(st, r, RunBody(P, env, f, c', r.st, r.rest));
    }
  }

  lemma {:induction false} CallRunsOn(P: Program, env: Env, f: nat, st: State, ev: seq<Event>)
    requires f < |P| && env.irq && env.check >= 0
    ensures RanOn(st, Call(P, env, f, st, ev))
    ensures Call(P, env, f, st, ev).out.Returned? || Call(P, env, f, st, ev).out.Cut?
    decreases |ev|, 3
  {
    hide RanOn;
    var st0 := st.(mask := 0);
    var st' := Log(st0, Enter(f));
    LogsOn(env, [], st0, Enter(f), ev);
    var r := RunBody(P, env, f, P[f].body, st', ev);
    BodyRunsOn(P, env, f, P[f].body, st', ev);
    RanOnThen(st0, Res(Normal, st', ev), r);
    LogsOn(env, [], r.st, Leave(f), r.rest);
    RanOnThen(st0, r, Res(Normal, Log(r.st, Leave(f)), r.rest));
    Outcomes(st, r, Call(P, env, f, st, ev), Leave(f));
  }

  lemma Outcomes(st: State, r: Res, r': Res, o: Obs)
    requires RanOn(st.(mask := 0), r) && RanOn(st.(mask := 0), Res(Normal, Log(r.st, o), r.rest))
    requires r'.out.Returned? || r'.out.Cut?
    requires r'.st.hf == r.st.hf && (r'.st.trace == r.st.trace || r'.st.trace == r.st.trace + [o]) && !o.Faulted?
    ensures RanOn(st, r')
  {
  }

  /** In interrupt context nothing is undone. Whatever faults strike wherever, a call returns or is still running;
      no undo statement runs, no function is left by its cleanup block and the machine is not restarted. All that
      remains of a fault is the flag: it is up on return if and only if it was up before or a fault has struck. */
  lemma InterruptsUndoNothing(P: Program, env: Env, f: nat, st: State, ev: seq<Event>)
    requires f < |P| && env.irq && env.check >= 0
    ensures var r := Call(P, env, f, st, ev);
            && (r.out.Returned? || r.out.Cut?)
            && (forall i :: |st.trace| <= i < |r.st.trace| ==>
                  !r.st.trace[i].Undid? && !r.st.trace[i].Unwound? && !r.st.trace[i].Reboot?)
            && (r.st.hf <==> st.hf || exists i :: |st.trace| <= i < |r.st.trace| && r.st.trace[i].Faulted?)
  {
    CallRunsOn(P, env, f, st, ev);
  }
}
