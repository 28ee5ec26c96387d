/** The induction over runs behind the unwinding property, and the property itself. */
module UnwindingTheorem {
  import opened MaskWord
  import opened Runtime
  import opened Unwinding

  lemma PrefixGuarded(p: seq<Obs>, tr: seq<Obs>)
    requires p <= tr && AllGuarded(tr)
    ensures AllGuarded(p)
  {
    assert tr[..|p|] == p;
  }

  lemma UnwindTop(P: Program, plans: seq<Plan>, fs: seq<Frame>, d: nat)
    requires d < |fs|
    ensures Unwind(P, plans, fs, d) ==
            LeaveBy(P, plans, fs[|fs|-1]) + if Closing(P, fs[|fs|-1]) then [] else Unwind(P, plans, fs[..|fs|-1], d)
  {
  }

  lemma {:induction false} UnwindOneMore(P: Program, plans: seq<Plan>, fs: seq<Frame>, d: nat)
    requires d < |fs| && NoneClosing(P, fs, d + 1)
    ensures Unwind(P, plans, fs, d) == Unwind(P, plans, fs, d + 1) + LeaveBy(P, plans, fs[d])
  {
    hide Unwind, LeaveBy;
    var rest, top := fs[..|fs|-1], fs[|fs|-1];
    UnwindTop(P, plans, fs, d);
    if |fs| == d + 1 {
      UnwindNothing(P, plans, fs, d + 1);
      UnwindNothing(P, plans, rest, d);
    } else {
      assert !Closing(P, top) && rest[d] == fs[d];
      UnwindTop(P, plans, fs, d + 1);
      UnwindOneMore(P, plans, rest, d);
      Assoc(LeaveBy(P, plans, top), Unwind(P, plans, rest, d + 1), LeaveBy(P, plans, fs[d]));
    }
  }

  lemma UnwindNothing(P: Program, plans: seq<Plan>, fs: seq<Frame>, d: nat)
    requires d >= |fs|
    ensures Unwind(P, plans, fs, d) == []
  {
  }

  lemma {:induction false} UnwindStopsAtRestart(P: Program, plans: seq<Plan>, fs: seq<Frame>, d: nat)
    requires d < |fs| && !NoneClosing(P, fs, d + 1)
    ensures Unwind(P, plans, fs, d) == Unwind(P, plans, fs, d + 1)
    ensures !NoneClosing(P, fs, d)
  {
    if !Closing(P, fs[|fs|-1]) {
      var rest := fs[..|fs|-1];
      assert !NoneClosing(P, rest, d + 1) by {
        var i :| d + 1 <= i < |fs| && Closing(P, fs[i]);
        assert rest[i] == fs[i];
      }
      UnwindStopsAtRestart(P, plans, rest, d);
    }
  }

  lemma {:induction false} LabelsConform(c: Code, l: nat, slots: seq<Slot>)
    requires CodeConforms(c, slots)
    ensures FromLabel(c, l).Some? ==> CodeConforms(FromLabel(c, l).value, slots)
  {
    match c
    case Seq(a, b) => LabelsConform(a, l, slots); LabelsConform(b, l, slots);
    case Block(_, _, body) => LabelsConform(body, l, slots);
    case If(_, a, b) => LabelsConform(a, l, slots); LabelsConform(b, l, slots);
    case While(_, body) => LabelsConform(body, l, slots);
    case _ =>
  }

  /** A fault that strikes here, in front of a jump, is caught here. */
  lemma CaughtAtOnce(P: Program, plans: seq<Plan>, f: nat, st: State, st': State)
    requires Live(P, plans, f, st)
    requires st'.hf && st'.mask == st.mask && st'.trace == st.trace + [Faulted(true)]
    ensures Caught(P, plans, f, Frames(st.trace), st', st.trace)
  {
    hide Represents, SlotId;
    assert Unwind(P, plans, Frames(st.trace), |Frames(st.trace)|) == [];
    assert st'.trace == st.trace + [Faulted(true)] + [];
  }

  lemma DidExtendsTop(st: State, at: nat)
    requires Frames(st.trace) != []
    ensures var fs, fs' := Frames(st.trace), Frames(Log(st, Did(at)).trace);
            |fs'| == |fs| && fs'[|fs|-1] == Frame(fs[|fs|-1].fn, fs[|fs|-1].done + [at]) && SameBelow(fs, fs', |fs| - 1)
  {
    FramesLog(st.trace, Did(at));
    var fs, fs' := Frames(st.trace), Frames(Log(st, Did(at)).trace);
    assert fs'[..|fs|-1] == fs[..|fs|-1];
  }

  /** A statement completes in front of its stamps. */
  lemma DidKeepsLive(P: Program, plans: seq<Plan>, env: Env, f: nat, st: State, at: nat, items: seq<Item>,
          ev: seq<Event>)
    requires Conforms(P, plans) && Live(P, plans, f, st) && ItemsConform(items, plans[f].slots, at)
    ensures ExecKeeps(P, plans, f, st, AfterItems(env, items, Log(st, Did(at)), ev))
    ensures AfterItems(env, items, Log(st, Did(at)), ev).out.Normal?
  {
    hide Represents, SlotId, Frames, Conforms, ItemsConform;
    var fs := Frames(st.trace);
    DidExtendsTop(st, at);
    StampsTrack(env, items, plans[f].slots, fs[|fs|-1].done, at, st.mask);
    var r := AfterItems(env, items, Log(st, Did(at)), ev);
    assert Known(P, Frames(r.st.trace)) by {
      forall i | 0 <= i < |fs| ensures Frames(r.st.trace)[i].fn < |P| {
        assert i < |fs| - 1 ==> Frames(r.st.trace)[i] == fs[..|fs|-1][i];
      }
    }
  }

  /** What a later part of the run keeps relative to a state on the way is kept relative to the start. */
  lemma KeepsCompose(P: Program, plans: seq<Plan>, f: nat, st: State, mid: State, r: Res)
    requires Live(P, plans, f, st) && Live(P, plans, f, mid) && ExecKeeps(P, plans, f, mid, r)
    requires |Frames(mid.trace)| == |Frames(st.trace)|
    requires SameBelow(Frames(st.trace), Frames(mid.trace), |Frames(st.trace)| - 1)
    ensures ExecKeeps(P, plans, f, st, r)
  {
    hide Represents, Frames, Unwind;
    var fs := Frames(st.trace);
    match r.out
    case ToCleanup =>
      var pre :| Caught(P, plans, f, Frames(mid.trace), r.st, pre);
      assert Caught(P, plans, f, fs, r.st, pre);
    case Rebooted =>
      var pre :| Restarted(P, plans, |fs|, r.st.trace, pre);
    case _ =>
  }

  lemma {:induction false} ExecUnwinds(P: Program, plans: seq<Plan>, env: Env, f: nat, c: Code, st: State,
          ev: seq<Event>)
    requires Conforms(P, plans) && !env.irq && env.check >= 0
    requires Live(P, plans, f, st) && CodeConforms(c, plans[f].slots)
    requires AllGuarded(Exec(P, env, c, st, ev).st.trace)
    ensures ExecKeeps(P, plans, f, st, Exec(P, env, c, st, ev))
    decreases |ev|, 0, c, 1
  {
    hide Represents, Frames, Unwind;
    match c
    case Seq(_, _) => PairUnwinds(P, plans, env, f, c, st, ev);
    case Resume(_, _) => PairUnwinds(P, plans, env, f, c, st, ev);
    case Block(_, _, _) => BlockUnwinds(P, plans, env, f, c, st, ev);
    case If(_, _, _) => IfUnwinds(P, plans, env, f, c, st, ev);
    case While(_, _) => WhileUnwinds(P, plans, env, f, c, st, ev);
    case Stmt(_, _, _) => StmtUnwinds(P, plans, env, f, c, st, ev);
    case Return(at) => FramesLog(st.trace, Result(at));
    case _ =>
  }

  lemma {:induction false} PairUnwinds(P: Program, plans: seq<Plan>, env: Env, f: nat, c: Code, st: State,
          ev: seq<Event>)
    requires Conforms(P, plans) && !env.irq && env.check >= 0
    requires c.Seq? || c.Resume?
    requires Live(P, plans, f, st) && CodeConforms(c, plans[f].slots)
    requires AllGuarded(Exec(P, env, c, st, ev).st.trace)
    ensures ExecKeeps(P, plans, f, st, Exec(P, env, c, st, ev))
    decreases |ev|, 0, c, 0
  {
    hide Represents, Frames, Unwind;
    var a, b := if c.Seq? then c.first else c.rest, if c.Seq? then c.second else c.loop;
    var r := Exec(P, env, a, st, ev);
    PrefixGuarded(r.st.trace, Exec(P, env, c, st, ev).st.trace);
    ExecUnwinds(P, plans, env, f, a, st, ev);
    if r.out.Normal? || (c.Resume? && r.out.Continued?) {
      ExecUnwinds(P, plans, env, f, b, r.st, r.rest);
      KeepsCompose(P, plans, f, st, r.st, Exec(P, env, b, r.st, r.rest));
    }
  }

  lemma {:induction false} BlockUnwinds(P: Program, plans: seq<Plan>, env: Env, f: nat, c: Code, st: State,
          ev: seq<Event>)
    requires Conforms(P, plans) && !env.irq && env.check >= 0
    requires c.Block?
    requires Live(P, plans, f, st) && CodeConforms(c, plans[f].slots)
    requires AllGuarded(Exec(P, env, c, st, ev).st.trace)
    ensures ExecKeeps(P, plans, f, st, Exec(P, env, c, st, ev))
    decreases |ev|, 0, c, 0
  {
    hide Represents, Frames, Unwind;
    var entered := AfterItems(env, c.open, Log(st, Did(c.at)), ev);
    DidKeepsLive(P, plans, env, f, st, c.at, c.open, ev);
    ExecUnwinds(P, plans, env, f, c.body, entered.st, ev);
    KeepsCompose(P, plans, f, st, entered.st, Exec(P, env, c.body, entered.st, ev));
  }

  function Arm(c: Code, branch: bool): Code
    requires c.If? || c.While?
  {
    if c.If? then if branch then c.yes else c.no else if branch then c.body else Skip
  }

  /** A condition that faults in front of an arm that opens with a jump. */
  lemma FaultyChoice(P: Program, plans: seq<Plan>, env: Env, f: nat, c: Code, st: State, ev: seq<Event>)
    requires !env.irq && (c.If? || c.While?) && Live(P, plans, f, st)
    requires ev != [] && ev[0].TookFaulting? && ev[0].test == c.test
    requires AllGuarded(Exec(P, env, c, st, ev).st.trace)
    ensures ExecKeeps(P, plans, f, st, Exec(P, env, c, st, ev))
  {
    hide Represents, Frames, Unwind;
    var arm := Arm(c, ev[0].branch);
    var g := OpensWithJump(arm);
    var st' := Log(st.(hf := true), Faulted(g));
    PrefixGuarded(st'.trace, Exec(P, env, c, st, ev).st.trace);
    assert g by { assert st'.trace[|st.trace|] == Faulted(g); }
    CaughtAtOnce(P, plans, f, st, st');
    assert Exec(P, env, arm, st', ev[1..]) == Res(ToCleanup, st', ev[1..]);
  }

  lemma {:induction false} IfUnwinds(P: Program, plans: seq<Plan>, env: Env, f: nat, c: Code, st: State, ev: seq<Event>)
    requires Conforms(P, plans) && !env.irq && env.check >= 0
    requires c.If?
    requires Live(P, plans, f, st) && CodeConforms(c, plans[f].slots)
    requires AllGuarded(Exec(P, env, c, st, ev).st.trace)
    ensures ExecKeeps(P, plans, f, st, Exec(P, env, c, st, ev))
    decreases |ev|, 0, c, 0
  {
    hide Represents, Frames, Unwind;
    if ev != [] && ev[0].TookFaulting? && ev[0].test == c.test {
      FaultyChoice(P, plans, env, f, c, st, ev);
    } else if ev != [] && ev[0].Took? {
      ExecUnwinds(P, plans, env, f, Arm(c, ev[0].branch), st, ev[1..]);
    }
  }

  lemma {:induction false} WhileUnwinds(P: Program, plans: seq<Plan>, env: Env, f: nat, c: Code, st: State,
          ev: seq<Event>)
    requires Conforms(P, plans) && !env.irq && env.check >= 0
    requires c.While?
    requires Live(P, plans, f, st) && CodeConforms(c, plans[f].slots)
    requires AllGuarded(Exec(P, env, c, st, ev).st.trace)
    ensures ExecKeeps(P, plans, f, st, Exec(P, env, c, st, ev))
    decreases |ev|, 0, c, 0
  {
    hide Represents, Frames, Unwind, Conforms, Caught, Restarted, AllGuarded;
    if ev != [] && ev[0].TookFaulting? && ev[0].test == c.test {
      FaultyChoice(P, plans, env, f, c, st, ev);
    } else if ev != [] && ev[0].Took? && ev[0].branch {
      var r := Exec(P, env, c.body, st, ev[1..]);
      PrefixGuarded(r.st.trace, Exec(P, env, c, st, ev).st.trace);
      ExecUnwinds(P, plans, env, f, c.body, st, ev[1..]);
      if r.out.Normal? || r.out.Continued? {
        ExecUnwinds(P, plans, env, f, c, r.st, r.rest);
        KeepsCompose(P, plans, f, st, r.st, Exec(P, env, c, r.st, r.rest));
      }
    }
  }

  lemma FaultyStmt(P: Program, plans: seq<Plan>, env: Env, f: nat, c: Code, st: State, ev: seq<Event>)
    requires !env.irq && c.Stmt? && Live(P, plans, f, st)
    requires ev != [] && ev[0] == Fault(c.at) && AllGuarded(Exec(P, env, c, st, ev).st.trace)
    ensures ExecKeeps(P, plans, f, st, Exec(P, env, c, st, ev))
  {
    hide Represents, Frames, Unwind;
    var g := HasJump(c.after);
    var st' := Log(st.(hf := true), Faulted(g));
    PrefixGuarded(st'.trace, Exec(P, env, c, st, ev).st.trace);
    assert g by { assert st'.trace[|st.trace|] == Faulted(g); }
    CaughtAtOnce(P, plans, f, st, st');
  }

  lemma NoMiss(st: State, jump: bool, tr: seq<Obs>)
    ensures AllGuarded(tr) && (if jump then st else Log(st, Missed)).trace <= tr ==> jump
  {
    if !jump && Log(st, Missed).trace <= tr {
      assert tr[|st.trace|] == Missed;
    }
  }

  lemma {:induction false} StmtUnwinds(P: Program, plans: seq<Plan>, env: Env, f: nat, c: Code, st: State,
          ev: seq<Event>)
    requires Conforms(P, plans) && !env.irq && env.check >= 0
    requires c.Stmt?
    requires Live(P, plans, f, st) && CodeConforms(c, plans[f].slots)
    requires AllGuarded(Exec(P, env, c, st, ev).st.trace)
    ensures ExecKeeps(P, plans, f, st, Exec(P, env, c, st, ev))
    decreases |ev|, 0, c, 0
  {
    hide Represents, Frames, Unwind;
    if ev != [] && ev[0] == Fault(c.at) {
      FaultyStmt(P, plans, env, f, c, st, ev);
    } else if ev != [] && ev[0].Done? && c.callee.Some? && c.callee.value < |P| {
      var r := Call(P, env, c.callee.value, st, ev[1..]);
      PrefixGuarded(r.st.trace, Exec(P, env, c, st, ev).st.trace);
      CallUnwinds(P, plans, env, c.callee.value, st, ev[1..]);
      NoMiss(r.st, HasJump(c.after), Exec(P, env, c, st, ev).st.trace);
      CallThenItems(P, plans, env, f, c, st, r);
    } else if ev != [] && ev[0].Done? {
      DidKeepsLive(P, plans, env, f, st, c.at, c.after, ev[1..]);
    }
  }

  /** Back in the caller: a callee that returned has completed its call statement, a callee that was unwound has
      not, and the jump behind the call statement fires before its stamps. */
  lemma CallThenItems(P: Program, plans: seq<Plan>, env: Env, f: nat, c: Code, st: State, r: Res)
    requires Conforms(P, plans) && Live(P, plans, f, st) && !env.irq && c.Stmt? && CodeConforms(c, plans[f].slots)
    requires CallKeeps(P, plans, st, r) && r.st.mask == st.mask && (r.out.Unwinding? ==> HasJump(c.after))
    ensures ExecKeeps(P, plans, f, st, AfterCall(env, c, r))
  {
    hide Represents, Frames, Unwind;
    match r.out
    case Returned =>
      assert Live(P, plans, f, r.st);
      DidKeepsLive(P, plans, env, f, r.st, c.at, c.after, r.rest);
      KeepsCompose(P, plans, f, st, r.st, AfterItems(env, c.after, Log(r.st, Did(c.at)), r.rest));
    case Unwinding => UnwoundIntoCaller(P, plans, env, f, c, st, r);
    case _ =>
  }

  lemma UnwoundIntoCaller(P: Program, plans: seq<Plan>, env: Env, f: nat, c: Code, st: State, r: Res)
    requires Live(P, plans, f, st) && !env.irq && c.Stmt? && HasJump(c.after)
    requires CallKeeps(P, plans, st, r) && r.st.mask == st.mask && r.out.Unwinding?
    ensures ExecKeeps(P, plans, f, st, AfterCall(env, c, r))
  {
    hide Represents, Frames, Unwind;
    var fs := Frames(st.trace);
    var pre :| Struck(P, plans, |fs|, r.st.trace, pre) && NoneClosing(P, Frames(pre), |fs|)
               && SameBelow(fs, Frames(pre), |fs|);
    assert Frames(pre)[..|fs|] == fs;
    assert Frames(pre)[|fs|-1] == fs[|fs|-1];
    assert Caught(P, plans, f, fs, r.st, pre);
    assert AfterCall(env, c, r) == Res(ToCleanup, r.st, r.rest);
  }

  lemma {:induction false} CallUnwinds(P: Program, plans: seq<Plan>, env: Env, f: nat, st: State, ev: seq<Event>)
    requires Conforms(P, plans) && !env.irq && env.check >= 0 && f < |P|
    requires !st.hf && NoFault(st.trace) && Known(P, Frames(st.trace))
    requires AllGuarded(Call(P, env, f, st, ev).st.trace)
    ensures CallKeeps(P, plans, st, Call(P, env, f, st, ev))
    decreases |ev|, 2
  {
    hide Represents, SlotId;
    var fs := Frames(st.trace);
    var st' := Log(st.(mask := 0), Enter(f));
    FramesLog(st.trace, Enter(f));
    assert OutstandingSet(plans[f].slots, []) == {};
    EmptyMask();
    assert FnConforms(P[f], plans[f]);
    var r := RunBody(P, env, f, P[f].body, st', ev);
    PrefixGuarded(r.st.trace, Call(P, env, f, st, ev).st.trace);
    BodyUnwinds(P, plans, env, f, P[f].body, st', ev);
    if JumpFree(P[f].body) {
      JumpFreeBody(P, env, f, P[f].body, st', ev);
    }
    BodyThenReturn(P, plans, env, f, st, r, Call(P, env, f, st, ev));
  }

  // ----- code without a jump never reaches its cleanup block -----

  lemma {:induction false} JumpFreeItems(env: Env, hf: bool, items: seq<Item>, mask: bv64)
    requires NoJumps(items)
    ensures !RunItems(env, hf, items, mask).0
  {
    if items != [] {
      match items[0]
      case SetStamp(id) => JumpFreeItems(env, hf, items[1..], SetBit(mask, id));
      case UnsetStamp(id) => JumpFreeItems(env, hf, items[1..], UnsetBit(mask, id));
    }
  }

  lemma {:induction false} JumpFreeLabels(c: Code, l: nat)
    requires JumpFree(c)
    ensures FromLabel(c, l).Some? ==> JumpFree(FromLabel(c, l).value)
  {
    match c
    case Seq(a, b) => JumpFreeLabels(a, l); JumpFreeLabels(b, l);
    case Block(_, _, body) => JumpFreeLabels(body, l);
    case If(_, a, b) => JumpFreeLabels(a, l); JumpFreeLabels(b, l);
    case While(_, body) => JumpFreeLabels(body, l);
    case _ =>
  }

  lemma {:induction false} JumpFreeExec(P: Program, env: Env, c: Code, st: State, ev: seq<Event>)
    requires JumpFree(c) && env.check >= 0
    ensures !Exec(P, env, c, st, ev).out.ToCleanup?
    decreases |ev|, c, 1
  {
    match c
    case Seq(a, b) =>
      JumpFreeExec(P, env, a, st, ev);
      var r := Exec(P, env, a, st, ev);
      if r.out.Normal? {
        JumpFreeExec(P, env, b, r.st, r.rest);
      }
    case Resume(rest, loop) =>
      JumpFreeExec(P, env, rest, st, ev);
      var r := Exec(P, env, rest, st, ev);
      if r.out.Normal? || r.out.Continued? {
        JumpFreeExec(P, env, loop, r.st, r.rest);
      }
    case Block(at, open, body) =>
      var entered := AfterItems(env, open, if st.hf then st else Log(st, Did(at)), ev);
      JumpFreeItems(env, st.hf, open, st.mask);
      JumpFreeExec(P, env, body, entered.st, ev);
    case If(_, _, _) => JumpFreeChoice(P, env, c, st, ev);
    case While(_, _) => JumpFreeChoice(P, env, c, st, ev);
    case Stmt(_, _, after) =>
      forall hf, mask ensures !RunItems(env, hf, after, mask).0 {
        JumpFreeItems(env, hf, after, mask);
      }
    case _ =>
  }

  lemma {:induction false} JumpFreeChoice(P: Program, env: Env, c: Code, st: State, ev: seq<Event>)
    requires (c.If? || c.While?) && JumpFree(c) && env.check >= 0
    ensures !Exec(P, env, c, st, ev).out.ToCleanup?
    decreases |ev|, c, 0
  {
    if ev != [] && (ev[0].Took? || (ev[0].TookFaulting? && ev[0].test == c.test)) {
      var arm := Arm(c, ev[0].branch);
      var st' := Decide(c.test, b => Arm(c, b), st, ev).value.1;
      JumpFreeExec(P, env, arm, st', ev[1..]);
      if c.While? && ev[0].branch {
        var r := Exec(P, env, arm, st', ev[1..]);
        if r.out.Normal? || r.out.Continued? {
          JumpFreeExec(P, env, c, r.st, r.rest);
        }
      }
    }
  }

  lemma {:induction false} JumpFreeBody(P: Program, env: Env, f: nat, c: Code, st: State, ev: seq<Event>)
    requires f < |P| && JumpFree(P[f].body) && JumpFree(c) && env.check >= 0
    ensures !RunBody(P, env, f, c, st, ev).out.ToCleanup?
    decreases |ev|, c
  {
    JumpFreeExec(P, env, c, st, ev);
    var r := Exec(P, env, c, st, ev);
    if r.out.Jump? {
      JumpFreeLabels(P[f].body, r.out.target);
      match FromLabel(P[f].body, r.out.target)
      case None =>
      case Some(c') => JumpFreeBody(P, env, f, c', r.st, r.rest);
    }
  }

  lemma BodyThenReturn(P: Program, plans: seq<Plan>, env: Env, f: nat, st: State, r: Res, whole: Res)
    requires Conforms(P, plans) && f < |P|
    requires ExecKeeps(P, plans, f, Log(st.(mask := 0), Enter(f)), r) && !r.out.Jump?
    requires JumpFree(P[f].body) ==> !r.out.ToCleanup?
    requires whole == EndCall(P, f, st.mask, r)
    ensures CallKeeps(P, plans, st, whole)
  {
    hide Represents, Frames, Unwind;
    var fs := Frames(st.trace);
    FramesLog(st.trace, Enter(f));
    match r.out
    case ToCleanup => BodyThenCleanup(P, plans, f, st, r, whole);
    case Rebooted =>
      var pre :| Restarted(P, plans, |fs| + 1, r.st.trace, pre);
      UnwindStopsAtRestart(P, plans, Frames(pre), |fs|);
      assert Restarted(P, plans, |fs|, whole.st.trace, pre);
    case Cut =>
    case _ => BodyThenLeave(P, plans, f, fs, r);
  }

  lemma BodyThenLeave(P: Program, plans: seq<Plan>, f: nat, fs: seq<Frame>, r: Res)
    requires Live(P, plans, f, r.st)
    requires |Frames(r.st.trace)| == |fs| + 1 && SameBelow(fs + [Frame(f, [])], Frames(r.st.trace), |fs|)
    ensures NoFault(r.st.trace + [Leave(f)]) && Frames(r.st.trace + [Leave(f)]) == fs
  {
    hide Represents, Frames, Unwind;
    FramesLog(r.st.trace, Leave(f));
    assert Frames(r.st.trace)[..|fs|] == (fs + [Frame(f, [])])[..|fs|] == fs;
  }

  lemma BodyThenCleanup(P: Program, plans: seq<Plan>, f: nat, st: State, r: Res, whole: Res)
    requires Conforms(P, plans) && f < |P| && r.out.ToCleanup?
    requires exists pre :: Caught(P, plans, f, Frames(st.trace) + [Frame(f, [])], r.st, pre)
    requires !JumpFree(P[f].body)
    requires whole == EndCall(P, f, st.mask, r)
    ensures CallKeeps(P, plans, st, whole)
  {
    hide Represents, Frames, Unwind;
    var fs := Frames(st.trace);
    var pre :| Caught(P, plans, f, fs + [Frame(f, [])], r.st, pre);
    if P[f].closing {
      RestartReached(P, plans, f, fs, r.st, pre);
      assert Restarted(P, plans, |fs|, whole.st.trace, pre);
    } else {
      CleanupReached(P, plans, f, fs, r.st, pre);
      assert Struck(P, plans, |fs|, whole.st.trace, pre);
    }
  }

  lemma Assoc<T>(a: seq<T>, b: seq<T>, c: seq<T>)
    ensures (a + b) + c == a + (b + c)
  {
  }

  /** Leaving one more frame extends the unwinding by one frame. */
  lemma LeaveOneMore(P: Program, plans: seq<Plan>, d: nat, tr: seq<Obs>, pre: seq<Obs>)
    requires Struck(P, plans, d + 1, tr, pre) && NoneClosing(P, Frames(pre), d + 1)
    ensures Struck(P, plans, d, tr + LeaveBy(P, plans, Frames(pre)[d]), pre)
  {
    var fs := Frames(pre);
    UnwindOneMore(P, plans, fs, d);
    Assoc(pre + [Faulted(true)], Unwind(P, plans, fs, d + 1), LeaveBy(P, plans, fs[d]));
  }

  /** The cleanup block of a frame that caught a fault pays what the frame owes and passes the fault on. */
  lemma CleanupReached(P: Program, plans: seq<Plan>, f: nat, fs: seq<Frame>, st: State, pre: seq<Obs>)
    requires Conforms(P, plans) && f < |P| && Caught(P, plans, f, fs + [Frame(f, [])], st, pre)
    requires !P[f].closing && !JumpFree(P[f].body)
    ensures Struck(P, plans, |fs|, RunCleanup(P[f].cleanup, st).trace + [Unwound(f)], pre)
    ensures NoneClosing(P, Frames(pre), |fs|)
    ensures SameBelow(fs, Frames(pre), |fs|)
  {
    hide Represents, Frames, Unwind, LeaveBy, RunCleanup, FnConforms;
    LeaveOneMore(P, plans, |fs|, st.trace, pre);
    LeavesBy(P, plans, f, Frames(pre)[|fs|], st);
    assert (fs + [Frame(f, [])])[..|fs|] == fs;
  }

  /** The cleanup block of a function of the closing kind restarts the machine. */
  lemma RestartReached(P: Program, plans: seq<Plan>, f: nat, fs: seq<Frame>, st: State, pre: seq<Obs>)
    requires Conforms(P, plans) && f < |P| && Caught(P, plans, f, fs + [Frame(f, [])], st, pre) && P[f].closing
    ensures Restarted(P, plans, |fs|, st.trace + [Reboot(f)], pre)
  {
    hide Represents, Frames, Unwind, FnConforms;
    LeaveOneMore(P, plans, |fs|, st.trace, pre);
    LeavesBy(P, plans, f, Frames(pre)[|fs|], st);
    assert Closing(P, Frames(pre)[|fs|]);
  }

  lemma LeavesBy(P: Program, plans: seq<Plan>, f: nat, top: Frame, st: State)
    requires Conforms(P, plans) && f < |P| && top.fn == f && (P[f].closing || !JumpFree(P[f].body))
    requires Represents(st.mask, OutstandingSet(plans[f].slots, top.done))
    ensures P[f].closing ==> LeaveBy(P, plans, top) == [Reboot(f)]
    ensures !P[f].closing ==> RunCleanup(P[f].cleanup, st).trace + [Unwound(f)] == st.trace + LeaveBy(P, plans, top)
  {
    assert FnConforms(P[f], plans[f]);
    CleanupPays(plans[f], plans[f].order, top.done, st.(hf := false));
    Assoc(st.trace, Owed(plans[f], plans[f].order, top.done), [Unwound(f)]);
  }

  lemma {:induction false} BodyUnwinds(P: Program, plans: seq<Plan>, env: Env, f: nat, c: Code, st: State,
          ev: seq<Event>)
    requires Conforms(P, plans) && !env.irq && env.check >= 0
    requires Live(P, plans, f, st) && CodeConforms(c, plans[f].slots)
    requires AllGuarded(RunBody(P, env, f, c, st, ev).st.trace)
    ensures ExecKeeps(P, plans, f, st, RunBody(P, env, f, c, st, ev))
    ensures !RunBody(P, env, f, c, st, ev).out.Jump?
    decreases |ev|, 1, c
  {
    hide Represents, Frames, Unwind;
    var r := Exec(P, env, c, st, ev);
    PrefixGuarded(r.st.trace, RunBody(P, env, f, c, st, ev).st.trace);
    ExecUnwinds(P, plans, env, f, c, st, ev);
    if r.out.Jump? {
      assert FnConforms(P[f], plans[f]);
      LabelsConform(P[f].body, r.out.target, plans[f].slots);
      match FromLabel(P[f].body, r.out.target)
      case None =>
      case Some(c') =>
        BodyUnwinds(P, plans, env, f, c', r.st, r.rest);
        KeepsCompose(P, plans, f, st, r.st, RunBody(P, env, f, c', r.st, r.rest));
    }
  }

  /** The whole story of a run outside interrupt context. Either no fault struck, or one fault struck: then everything
      after it is the unwinding of the functions that were active, innermost first, where each runs, once and with the
      fault flag down, the undos of exactly its outstanding slots, up to the outermost function or to the first
      function of the closing kind, which restarts the machine. */
  lemma FaultUnwindsTheStack(P: Program, plans: seq<Plan>, env: Env, f: nat, ev: seq<Event>)
    requires Conforms(P, plans) && !env.irq && env.check >= 0 && f < |P|
    requires AllGuarded(Call(P, env, f, State(false, 0, []), ev).st.trace)
    ensures var r := Call(P, env, f, State(false, 0, []), ev);
            match r.out
            case Returned => !r.st.hf && NoFault(r.st.trace)
            case Unwinding => r.st.hf && exists pre :: Struck(P, plans, 0, r.st.trace, pre)
                                                       && NoneClosing(P, Frames(pre), 0)
            case Rebooted => exists pre :: Struck(P, plans, 0, r.st.trace, pre) && !NoneClosing(P, Frames(pre), 0)
            case Cut => true
            case _ => false
  {
    CallUnwinds(P, plans, env, f, State(false, 0, []), ev);
  }
}
