/** A fault at a statement that kept no jump is noticed late, at the first jump that execution meets, or never. */
module LateJumps {
  import opened MaskWord
  import opened Refinement
  import opened Runtime
  import opened Unwinding
  import opened UnwindingTheorem
  import opened Owing

  function Dids(ats: seq<nat>): seq<Obs> {
    seq(|ats|, i requires 0 <= i < |ats| => Did(ats[i]))
  }

  /** Code that calls no instrumented function and whose blocks open with a jump, as generated blocks do. */
  predicate Plain(c: Code) {
    match c
    case Stmt(_, callee, _) => callee.None?
    case Seq(a, b) => Plain(a) && Plain(b)
    case Block(_, open, body) => HasJump(open) && Plain(body)
    case If(_, a, b) => Plain(a) && Plain(b)
    case While(_, body) => Plain(body)
    case Resume(rest, loop) => Plain(rest) && Plain(loop)
    case _ => true
  }

  lemma {:induction false} PlainLabels(c: Code, l: nat)
    requires Plain(c)
    ensures FromLabel(c, l).Some? ==> Plain(FromLabel(c, l).value)
  {
    match c
    case Seq(a, b) => PlainLabels(a, l); PlainLabels(b, l);
    case Block(_, _, body) => PlainLabels(body, l);
    case If(_, a, b) => PlainLabels(a, l); PlainLabels(b, l);
    case While(_, body) => PlainLabels(body, l);
    case _ =>
  }

  // ----- with the flag up -----

  /** The mask is in step with the completed statements. */
  ghost predicate InStep(mask: bv64, slots: seq<Slot>, done: seq<nat>) {
    Represents(mask, OutstandingSet(slots, done))
  }

  /** What a return logs. */
  predicate Ends(out: Outcome, end: seq<Obs>) {
    if out.Returned? then |end| == 1 && end[0].Result? else end == []
  }

  /** The flag was up in st, and stays up. The statements at `ats` complete; the mask takes account of all of them, but
      for the one in front of the jump that is taken. Behind a brace the jump stands in front of all statements. */
  ghost predicate LateRun(st: State, r: Res, slots: seq<Slot>, done: seq<nat>, ats: seq<nat>, end: seq<Obs>,
          brace: bool) {
    && r.st.hf && FaultFree(r.rest) && Ends(r.out, end)
    && r.st.trace == st.trace + Dids(ats) + end
    && !r.out.Unwinding? && !r.out.Rebooted?
    && if r.out.ToCleanup? && !brace then ats != [] && InStep(r.st.mask, slots, done + ats[..|ats|-1])
       else InStep(r.st.mask, slots, done + ats)
  }

  lemma NothingHappens(st: State, r: Res, slots: seq<Slot>, done: seq<nat>)
    requires st.hf && r.st == st && FaultFree(r.rest) && InStep(st.mask, slots, done)
    requires r.out.Normal? || r.out.Broke? || r.out.Continued? || r.out.Jump? || r.out.Cut? || r.out.ToCleanup?
    ensures LateRun(st, r, slots, done, [], [], true)
    ensures !r.out.ToCleanup? ==> LateRun(st, r, slots, done, [], [], false)
  {
    hide InStep;
    assert done + [] == done && st.trace + Dids([]) + [] == st.trace;
  }

  lemma LateCompose(st: State, a: Res, r: Res, slots: seq<Slot>, done: seq<nat>, ats: seq<nat>, more: seq<nat>,
                    end: seq<Obs>, brace: bool)
    requires LateRun(st, a, slots, done, ats, [], false) && !a.out.ToCleanup?
    requires LateRun(a.st, r, slots, done + ats, more, end, brace)
    ensures LateRun(st, r, slots, done, ats + more, end, brace)
  {
    hide InStep;
    assert done + ats + more == done + (ats + more);
    if more != [] {
      assert done + ats + more[..|more|-1] == done + (ats + more)[..|ats + more|-1];
    }
    assert Dids(ats + more) == Dids(ats) + Dids(more);
    assert st.trace + Dids(ats) + [] + Dids(more) + end == st.trace + Dids(ats + more) + end;
  }

  lemma StampsPass(env: Env, items: seq<Item>, slots: seq<Slot>, done: seq<nat>, at: nat, m: bv64)
    requires ItemsConform(items, slots, at) && !HasJump(items) && InStep(m, slots, done)
    ensures var (jumped, m') := RunItems(env, true, items, m);
            !jumped && InStep(m', slots, done + [at])
  {
    hide Represents, SlotId;
    assert PartlyStamped(slots, 0, done, at) == OutstandingSet(slots, done);
    StampsRun(env, true, slots, 0, done, at, m);
  }

  lemma LateStmt(P: Program, env: Env, c: Code, slots: seq<Slot>, done: seq<nat>, st: State, ev: seq<Event>)
      returns (ats: seq<nat>)
    requires c.Stmt? && Plain(c) && CodeConforms(c, slots) && !env.irq
    requires st.hf && InStep(st.mask, slots, done) && FaultFree(ev)
    ensures LateRun(st, Exec(P, env, c, st, ev), slots, done, ats, [], false)
  {
    hide InStep, ItemsConform;
    var r := Exec(P, env, c, st, ev);
    ats := [];
    assert Dids([c.at]) == [Did(c.at)];
    if ev != [] {
      assert ev[0] in ev;
      assert ev[0] != Fault(c.at);
    }
    assert r == ExecStmt(P, env, c, st, ev);
    if ev != [] && ev[0].Done? {
      ats := [c.at];
      if HasJump(c.after) {
        assert done + ats[..0] == done;
      } else {
        StampsPass(env, c.after, slots, done, c.at, st.mask);
      }
      assert st.trace + Dids(ats) + [] == st.trace + [Did(c.at)];
    } else {
      NothingHappens(st, r, slots, done);
    }
  }

  lemma {:induction false} LateExec(P: Program, env: Env, c: Code, slots: seq<Slot>, done: seq<nat>, st: State,
                                    ev: seq<Event>) returns (ats: seq<nat>, end: seq<Obs>, brace: bool)
    requires Plain(c) && CodeConforms(c, slots) && !env.irq && env.check >= 0
    requires st.hf && InStep(st.mask, slots, done) && FaultFree(ev)
    ensures LateRun(st, Exec(P, env, c, st, ev), slots, done, ats, end, brace)
    decreases |ev|, 0, c, 1
  {
    hide InStep, ItemsConform;
    var r := Exec(P, env, c, st, ev);
    match c
    case Seq(a, b) => ats, end, brace := LatePair(P, env, c, slots, done, st, ev);
    case Resume(_, _) => ats, end, brace := LatePair(P, env, c, slots, done, st, ev);
    case If(_, _, _) => ats, end, brace := LateChoice(P, env, c, slots, done, st, ev);
    case While(_, _) => ats, end, brace := LateChoice(P, env, c, slots, done, st, ev);
    case Stmt(_, _, _) =>
      ats := LateStmt(P, env, c, slots, done, st, ev);
      end, brace := [], false;
    case Return(at) =>
      ats, end, brace := [], [Result(at)], false;
      assert done + [] == done && st.trace + Dids([]) + end == st.trace + [Result(at)];
    case _ =>
      ats, end, brace := [], [], true;
      NothingHappens(st, r, slots, done);
  }

  lemma LatePair(P: Program, env: Env, c: Code, slots: seq<Slot>, done: seq<nat>, st: State, ev: seq<Event>)
      returns (ats: seq<nat>, end: seq<Obs>, brace: bool)
    requires c.Seq? || c.Resume?
    requires Plain(c) && CodeConforms(c, slots) && !env.irq && env.check >= 0
    requires st.hf && InStep(st.mask, slots, done) && FaultFree(ev)
    ensures LateRun(st, Exec(P, env, c, st, ev), slots, done, ats, end, brace)
    decreases |ev|, 0, c, 0
  {
    hide InStep, ItemsConform;
    var a, b := if c.Seq? then c.first else c.rest, if c.Seq? then c.second else c.loop;
    var r := Exec(P, env, a, st, ev);
    ats, end, brace := LateExec(P, env, a, slots, done, st, ev);
    if r.out.Normal? || (c.Resume? && r.out.Continued?) {
      var more;
      more, end, brace := LateExec(P, env, b, slots, done + ats, r.st, r.rest);
      LateCompose(st, r, Exec(P, env, b, r.st, r.rest), slots, done, ats, more, end, brace);
      ats := ats + more;
    }
  }

  lemma LateChoice(P: Program, env: Env, c: Code, slots: seq<Slot>, done: seq<nat>, st: State, ev: seq<Event>)
      returns (ats: seq<nat>, end: seq<Obs>, brace: bool)
    requires c.If? || c.While?
    requires Plain(c) && CodeConforms(c, slots) && !env.irq && env.check >= 0
    requires st.hf && InStep(st.mask, slots, done) && FaultFree(ev)
    ensures LateRun(st, Exec(P, env, c, st, ev), slots, done, ats, end, brace)
    decreases |ev|, 0, c, 0
  {
    hide InStep, ItemsConform;
    if ev != [] {
      assert ev[0] in ev;
    }
    if ev != [] && ev[0].Took? && (c.If? || ev[0].branch) {
      var arm := Arm(c, ev[0].branch);
      ats, end, brace := LateExec(P, env, arm, slots, done, st, ev[1..]);
      var r := Exec(P, env, arm, st, ev[1..]);
      if c.While? && (r.out.Normal? || r.out.Continued?) {
        var more;
        more, end, brace := LateExec(P, env, c, slots, done + ats, r.st, r.rest);
        LateCompose(st, r, Exec(P, env, c, r.st, r.rest), slots, done, ats, more, end, brace);
        ats := ats + more;
      }
    } else {
      ats, end, brace := [], [], true;
      NothingHappens(st, Exec(P, env, c, st, ev), slots, done);
    }
  }

  lemma {:induction false} LateBody(P: Program, env: Env, f: nat, c: Code, slots: seq<Slot>, done: seq<nat>, st: State,
                                    ev: seq<Event>) returns (ats: seq<nat>, end: seq<Obs>, brace: bool)
    requires f < |P| && Plain(P[f].body) && CodeConforms(P[f].body, slots)
    requires Plain(c) && CodeConforms(c, slots) && !env.irq && env.check >= 0
    requires st.hf && InStep(st.mask, slots, done) && FaultFree(ev)
    ensures LateRun(st, RunBody(P, env, f, c, st, ev), slots, done, ats, end, brace)
    decreases |ev|, 1, c
  {
    hide InStep, ItemsConform;
    ats, end, brace := LateExec(P, env, c, slots, done, st, ev);
    var r := Exec(P, env, c, st, ev);
    if r.out.Jump? {
      PlainLabels(P[f].body, r.out.target);
      LabelsConform(P[f].body, r.out.target, slots);
      match FromLabel(P[f].body, r.out.target)
      case None =>
      case Some(c') =>
        var more;
        more, end, brace := LateBody(P, env, f, c', slots, done + ats, r.st, r.rest);
        LateCompose(st, r, RunBody(P, env, f, c', r.st, r.rest), slots, done, ats, more, end, brace);
        ats := ats + more;
    }
  }

  // ----- one fault -----

  /** At most one fault, and at the statement at `hit`. */
  ghost predicate OneFault(ev: seq<Event>, hit: nat) {
    ev != [] ==>
      if ev[0].Fault? then ev[0].at == hit && FaultFree(ev[1..]) else !ev[0].TookFaulting? && OneFault(ev[1..], hit)
  }

  /** What became of the one fault: it has not struck yet, it found its jump, or it struck at `late`, which kept none.
      The other locations are those of the statements that completed, before and after it. */
  datatype Story =
    | NoneYet(before: seq<nat>)
    | AtOnce(before: seq<nat>)
    | Late(before: seq<nat>, late: nat, after: seq<nat>, brace: bool)

  ghost predicate Tells(s: Story, end: seq<Obs>, st: State, r: Res, slots: seq<Slot>, done: seq<nat>, hit: nat) {
    match s
    case NoneYet(before) =>
      && !r.st.hf && OneFault(r.rest, hit) && Ends(r.out, end)
      && !r.out.ToCleanup? && !r.out.Unwinding? && !r.out.Rebooted?
      && r.st.trace == st.trace + Dids(before) + end && InStep(r.st.mask, slots, done + before)
    case AtOnce(before) =>
      && r.out.ToCleanup? && r.st.hf && end == []
      && r.st.trace == st.trace + Dids(before) + [Faulted(true)] && InStep(r.st.mask, slots, done + before)
    case Late(before, late, after, brace) =>
      late == hit &&
      var struck := st.(trace := st.trace + Dids(before) + [Faulted(false)]);
      LateRun(struck, r, slots, done + before + [late], after, end, brace)
  }

  lemma QuietThen(st: State, a: Res, r: Res, slots: seq<Slot>, done: seq<nat>, hit: nat, ats: seq<nat>, s: Story,
          end: seq<Obs>)
    requires Tells(NoneYet(ats), [], st, a, slots, done, hit) && Tells(s, end, a.st, r, slots, done + ats, hit)
    ensures Tells(s.(before := ats + s.before), end, st, r, slots, done, hit)
  {
    hide InStep, OneFault, FaultFree;
    assert done + ats + s.before == done + (ats + s.before);
    assert Dids(ats + s.before) == Dids(ats) + Dids(s.before);
    assert st.trace + Dids(ats) + [] + Dids(s.before) == st.trace + Dids(ats + s.before);
  }

  lemma LateThen(st: State, a: Res, r: Res, slots: seq<Slot>, done: seq<nat>, hit: nat, s: Story, more: seq<nat>,
          end: seq<Obs>, brace: bool)
    requires s.Late? && Tells(s, [], st, a, slots, done, hit) && !a.out.ToCleanup?
    requires LateRun(a.st, r, slots, done + s.before + [s.late] + s.after, more, end, brace)
    ensures Tells(s.(after := s.after + more, brace := brace), end, st, r, slots, done, hit)
  {
    hide InStep;
    var mid := st.(trace := st.trace + Dids(s.before) + [Faulted(false)]);
    LateCompose(mid, a, r, slots, done + s.before + [s.late], s.after, more, end, brace);
  }

  lemma NothingYet(st: State, r: Res, slots: seq<Slot>, done: seq<nat>, hit: nat)
    requires !st.hf && r.st == st && OneFault(r.rest, hit) && InStep(st.mask, slots, done)
    requires r.out.Normal? || r.out.Broke? || r.out.Continued? || r.out.Jump? || r.out.Cut?
    ensures Tells(NoneYet([]), [], st, r, slots, done, hit)
  {
    hide InStep;
    assert done + [] == done && st.trace + Dids([]) + [] == st.trace;
  }

  lemma OneFaultStmt(P: Program, env: Env, c: Code, slots: seq<Slot>, done: seq<nat>, hit: nat, st: State,
          ev: seq<Event>)
      returns (s: Story)
    requires c.Stmt? && Plain(c) && CodeConforms(c, slots) && !env.irq
    requires !st.hf && InStep(st.mask, slots, done) && OneFault(ev, hit)
    ensures Tells(s, [], st, Exec(P, env, c, st, ev), slots, done, hit)
  {
    hide ItemsConform, Represents, FaultFree;
    var r := Exec(P, env, c, st, ev);
    assert r == ExecStmt(P, env, c, st, ev);
    assert Dids([]) == [] && done + [] == done;
    if ev != [] && ev[0] == Fault(c.at) {
      var st1 := Log(st.(hf := true), Faulted(HasJump(c.after)));
      if HasJump(c.after) {
        s := AtOnce([]);
        assert r == Res(ToCleanup, st1, ev[1..]);
        assert st.trace + [] + [Faulted(true)] == st1.trace;
      } else {
        s := Late([], c.at, [], false);
        StampsPass(env, c.after, slots, done, c.at, st.mask);
        assert st.trace + [] + [Faulted(false)] == st1.trace;
        assert done + [] + [c.at] + [] == done + [c.at];
      }
    } else if ev != [] && ev[0].Done? {
      s := NoneYet([c.at]);
      StampsTrack(env, c.after, slots, done, c.at, st.mask);
      assert Dids([c.at]) == [Did(c.at)] && st.trace + [Did(c.at)] + [] == st.trace + [Did(c.at)];
    } else {
      s := NoneYet([]);
      NothingYet(st, r, slots, done, hit);
    }
  }

  lemma {:induction false} OneFaultExec(P: Program, env: Env, c: Code, slots: seq<Slot>, done: seq<nat>, hit: nat,
          st: State, ev: seq<Event>) returns (s: Story, end: seq<Obs>)
    requires Plain(c) && CodeConforms(c, slots) && !env.irq && env.check >= 0
    requires !st.hf && InStep(st.mask, slots, done) && OneFault(ev, hit)
    ensures Tells(s, end, st, Exec(P, env, c, st, ev), slots, done, hit)
    decreases |ev|, 0, c, 1
  {
    hide InStep, ItemsConform;
    var r := Exec(P, env, c, st, ev);
    match c
    case Seq(a, b) => s, end := OneFaultPair(P, env, c, slots, done, hit, st, ev);
    case Resume(_, _) => s, end := OneFaultPair(P, env, c, slots, done, hit, st, ev);
    case If(_, _, _) => s, end := OneFaultChoice(P, env, c, slots, done, hit, st, ev);
    case While(_, _) => s, end := OneFaultChoice(P, env, c, slots, done, hit, st, ev);
    case Block(at, open, body) => s, end := OneFaultBlock(P, env, c, slots, done, hit, st, ev);
    case Stmt(_, _, _) =>
      s := OneFaultStmt(P, env, c, slots, done, hit, st, ev);
      end := [];
    case Return(at) =>
      s, end := NoneYet([]), [Result(at)];
      assert done + [] == done && st.trace + Dids([]) + end == st.trace + [Result(at)];
    case _ =>
      s, end := NoneYet([]), [];
      NothingYet(st, r, slots, done, hit);
  }

  lemma OneFaultBlock(P: Program, env: Env, c: Code, slots: seq<Slot>, done: seq<nat>, hit: nat, st: State,
          ev: seq<Event>)
      returns (s: Story, end: seq<Obs>)
    requires c.Block?
    requires Plain(c) && CodeConforms(c, slots) && !env.irq && env.check >= 0
    requires !st.hf && InStep(st.mask, slots, done) && OneFault(ev, hit)
    ensures Tells(s, end, st, Exec(P, env, c, st, ev), slots, done, hit)
    decreases |ev|, 0, c, 0
  {
    hide Represents, ItemsConform, OneFault;
    StampsTrack(env, c.open, slots, done, c.at, st.mask);
    var entered := AfterItems(env, c.open, Log(st, Did(c.at)), ev);
    assert Dids([c.at]) == [Did(c.at)] && st.trace + [Did(c.at)] + [] == st.trace + [Did(c.at)];
    assert Tells(NoneYet([c.at]), [], st, entered, slots, done, hit);
    s, end := OneFaultExec(P, env, c.body, slots, done + [c.at], hit, entered.st, ev);
    QuietThen(st, entered, Exec(P, env, c.body, entered.st, ev), slots, done, hit, [c.at], s, end);
    s := s.(before := [c.at] + s.before);
  }

  /** What follows a piece of code that ended normally. */
  lemma ThenExec(P: Program, env: Env, c: Code, slots: seq<Slot>, done: seq<nat>, hit: nat, st: State, a: Res,
          s0: Story)
      returns (s: Story, end: seq<Obs>)
    requires Plain(c) && CodeConforms(c, slots) && !env.irq && env.check >= 0
    requires Tells(s0, [], st, a, slots, done, hit) && !a.out.ToCleanup?
    ensures Tells(s, end, st, Exec(P, env, c, a.st, a.rest), slots, done, hit)
    decreases |a.rest|, 0, c, 2
  {
    hide InStep, ItemsConform, OneFault;
    match s0
    case NoneYet(before) =>
      s, end := OneFaultExec(P, env, c, slots, done + before, hit, a.st, a.rest);
      QuietThen(st, a, Exec(P, env, c, a.st, a.rest), slots, done, hit, before, s, end);
      s := s.(before := before + s.before);
    case Late(before, late, after, _) =>
      var more, brace;
      more, end, brace := LateExec(P, env, c, slots, done + before + [late] + after, a.st, a.rest);
      LateThen(st, a, Exec(P, env, c, a.st, a.rest), slots, done, hit, s0, more, end, brace);
      s := s0.(after := after + more, brace := brace);
  }

  lemma OneFaultPair(P: Program, env: Env, c: Code, slots: seq<Slot>, done: seq<nat>, hit: nat, st: State,
          ev: seq<Event>)
      returns (s: Story, end: seq<Obs>)
    requires c.Seq? || c.Resume?
    requires Plain(c) && CodeConforms(c, slots) && !env.irq && env.check >= 0
    requires !st.hf && InStep(st.mask, slots, done) && OneFault(ev, hit)
    ensures Tells(s, end, st, Exec(P, env, c, st, ev), slots, done, hit)
    decreases |ev|, 0, c, 0
  {
    hide InStep, ItemsConform, OneFault;
    var a, b := if c.Seq? then c.first else c.rest, if c.Seq? then c.second else c.loop;
    var r := Exec(P, env, a, st, ev);
    s, end := OneFaultExec(P, env, a, slots, done, hit, st, ev);
    if r.out.Normal? || (c.Resume? && r.out.Continued?) {
      s, end := ThenExec(P, env, b, slots, done, hit, st, r, s);
    }
  }

  lemma OneFaultChoice(P: Program, env: Env, c: Code, slots: seq<Slot>, done: seq<nat>, hit: nat, st: State,
          ev: seq<Event>)
      returns (s: Story, end: seq<Obs>)
    requires c.If? || c.While?
    requires Plain(c) && CodeConforms(c, slots) && !env.irq && env.check >= 0
    requires !st.hf && InStep(st.mask, slots, done) && OneFault(ev, hit)
    ensures Tells(s, end, st, Exec(P, env, c, st, ev), slots, done, hit)
    decreases |ev|, 0, c, 0
  {
    hide InStep, ItemsConform, FaultFree;
    if ev != [] && ev[0].Took? && (c.If? || ev[0].branch) {
      var arm := Arm(c, ev[0].branch);
      s, end := OneFaultExec(P, env, arm, slots, done, hit, st, ev[1..]);
      var r := Exec(P, env, arm, st, ev[1..]);
      if c.While? && (r.out.Normal? || r.out.Continued?) {
        s, end := ThenExec(P, env, c, slots, done, hit, st, r, s);
      }
    } else {
      s, end := NoneYet([]), [];
      NothingYet(st, Exec(P, env, c, st, ev), slots, done, hit);
    }
  }

  lemma {:induction false} OneFaultBody(P: Program, env: Env, f: nat, c: Code, slots: seq<Slot>, done: seq<nat>,
          hit: nat, st: State, ev: seq<Event>) returns (s: Story, end: seq<Obs>)
    requires f < |P| && Plain(P[f].body) && CodeConforms(P[f].body, slots)
    requires Plain(c) && CodeConforms(c, slots) && !env.irq && env.check >= 0
    requires !st.hf && InStep(st.mask, slots, done) && OneFault(ev, hit)
    ensures Tells(s, end, st, RunBody(P, env, f, c, st, ev), slots, done, hit)
    decreases |ev|, 1, c
  {
    hide InStep, ItemsConform, OneFault;
    s, end := OneFaultExec(P, env, c, slots, done, hit, st, ev);
    var r := Exec(P, env, c, st, ev);
    if r.out.Jump? {
      PlainLabels(P[f].body, r.out.target);
      LabelsConform(P[f].body, r.out.target, slots);
      match FromLabel(P[f].body, r.out.target)
      case None =>
      case Some(c') =>
        match s {
          case NoneYet(before) =>
            var s';
            s', end := OneFaultBody(P, env, f, c', slots, done + before, hit, r.st, r.rest);
            QuietThen(st, r, RunBody(P, env, f, c', r.st, r.rest), slots, done, hit, before, s', end);
            s := s'.(before := before + s'.before);
          case Late(before, late, after, _) =>
            var more, brace;
            more, end, brace := LateBody(P, env, f, c', slots, done + before + [late] + after, r.st, r.rest);
            LateThen(st, r, RunBody(P, env, f, c', r.st, r.rest), slots, done, hit, s, more, end, brace);
            s := s.(after := after + more, brace := brace);
        }
    }
  }

  // ----- the whole function -----

  /** The completed statements as the mask has them when a late jump is taken. */
  function Paid(s: Story): seq<nat>
    requires s.Late?
  {
    s.before + if s.brace || s.after == [] then [s.late] + s.after else ([s.late] + s.after)[..|s.after|]
  }

  /** The trace up to the end of the function's own statements. */
  function Seen(f: nat, s: Story): seq<Obs> {
    match s
    case NoneYet(before) => [Enter(f)] + Dids(before)
    case AtOnce(before) => [Enter(f)] + Dids(before) + [Faulted(true)]
    case Late(before, _, after, _) => [Enter(f)] + Dids(before) + [Faulted(false)] + Dids(after)
  }

  /** The slots whose undos run at the end of the story: none when the function has returned. */
  function UndoneSlots(plan: Plan, s: Story, out: Outcome): seq<nat>
    requires AllBelow(plan.order, |plan.slots|)
  {
    if !out.Unwinding? then []
    else OwedSlots(plan, plan.order, if s.Late? then Paid(s) else s.before)
  }

  lemma CleanupSeen(plan: Plan, slots: seq<Slot>, done: seq<nat>, st: State)
    requires AllBelow(plan.order, |plan.slots|) && slots == plan.slots && InStep(st.mask, slots, done)
    ensures var owed := OwedSlots(plan, plan.order, done);
            AllBelow(owed, |plan.slots|)
            && RunCleanup(GuardsOf(plan, plan.order), st).trace == st.trace + UndoneBy(plan, owed)
  {
    CleanupPays(plan, plan.order, done, st.(hf := false));
    OwedIsUndone(plan, plan.order, done);
  }

  /** A function that calls no instrumented function, and at most one fault. A fault that finds its jump undoes what is
      outstanding. One that does not is noticed at a later jump, and then those slots are undone that are outstanding in
      the mask's view; or the function returns before any jump, with the flag up, and nothing is undone. */
  lemma LateFault(P: Program, plan: Plan, env: Env, f: nat, ev: seq<Event>, hit: nat) returns (s: Story, end: seq<Obs>)
    requires f < |P| && FnConforms(P[f], plan) && Plain(P[f].body) && !P[f].closing
    requires !env.irq && env.check >= 0 && OneFault(ev, hit)
    ensures s.Late? ==> s.late == hit
    ensures var r := Call(P, env, f, State(false, 0, []), ev);
            var undone := UndoneSlots(plan, s, r.out);
            && AllBelow(undone, |plan.slots|)
            && match r.out
               case Unwinding =>
                 r.st.hf && !s.NoneYet? && r.st.trace == Seen(f, s) + UndoneBy(plan, undone) + [Unwound(f)]
               case Returned =>
                 && !s.AtOnce? && (r.st.hf <==> s.Late?) && |end| <= 1 && (forall o :: o in end ==> o.Result?)
                 && r.st.trace == Seen(f, s) + end + [Leave(f)]
               case Cut => true
               case _ => false
  {
    hide InStep, ItemsConform, OneFault, RunCleanup, UndoneBy;
    var st0 := State(false, 0, [Enter(f)]);
    assert [] + [Enter(f)] == [Enter(f)];
    EmptyInStep(plan.slots);
    s, end := OneFaultBody(P, env, f, P[f].body, plan.slots, [], hit, st0, ev);
    var r := RunBody(P, env, f, P[f].body, st0, ev);
    if r.out.ToCleanup? {
      if JumpFree(P[f].body) {
        JumpFreeBody(P, env, f, P[f].body, st0, ev);
      }
      var done := if s.Late? then Paid(s) else s.before;
      CleanupStep(s, end, st0, r, plan.slots, hit);
      CleanupSeen(plan, plan.slots, done, r.st);
    } else {
      assert r.out.Jump? ==> false by { BodyNeverJumps(P, env, f, P[f].body, st0, ev); }
    }
  }

  lemma EmptyInStep(slots: seq<Slot>)
    ensures InStep(0, slots, [])
  {
    assert OutstandingSet(slots, []) == {};
    EmptyMask();
  }

  lemma CleanupStep(s: Story, end: seq<Obs>, st: State, r: Res, slots: seq<Slot>, hit: nat)
    requires Tells(s, end, st, r, slots, [], hit) && r.out.ToCleanup?
    ensures InStep(r.st.mask, slots, if s.Late? then Paid(s) else s.before) && end == []
  {
    hide InStep;
    assert [] + s.before == s.before;
    if s.Late? {
      assert [] + s.before + [s.late] + s.after == s.before + ([s.late] + s.after);
      if !s.brace {
        assert [] + s.before + [s.late] + s.after[..|s.after|-1] == s.before + ([s.late] + s.after)[..|s.after|];
      }
    }
  }

  lemma {:induction false} BodyNeverJumps(P: Program, env: Env, f: nat, c: Code, st: State, ev: seq<Event>)
    requires f < |P|
    ensures !RunBody(P, env, f, c, st, ev).out.Jump?
    decreases |ev|, c
  {
    var r := Exec(P, env, c, st, ev);
    if r.out.Jump? {
      match FromLabel(P[f].body, r.out.target)
      case None =>
      case Some(c') => BodyNeverJumps(P, env, f, c', r.st, r.rest);
    }
  }

  // ----- when lateness does no harm -----

  predicate Touches(slot: Slot, at: nat) {
    at in slot.pairs || at in slot.undos
  }

  predicate TouchedIn(slot: Slot, ats: seq<nat>) {
    exists i :: 0 <= i < |ats| && Touches(slot, ats[i])
  }

  /** Behind a brace: the statement that faulted leaves the slot alone, or another statement of the slot completed after
      it. Behind a statement: that statement leaves the slot alone, too, and the other one came before it. */
  predicate Harmless(slot: Slot, s: Story)
    requires s.Late?
  {
    if s.brace || s.after == [] then Touches(slot, s.late) ==> TouchedIn(slot, s.after)
    else
      var last := |s.after| - 1;
      !Touches(slot, s.after[last]) && (Touches(slot, s.late) ==> TouchedIn(slot, s.after[..last]))
  }

  lemma {:induction false} LastTouchDecides(slot: Slot, a: seq<nat>, b: seq<nat>, ats: seq<nat>)
    ensures TouchedIn(slot, ats) ==> (Outstanding(slot, a + ats) <==> Outstanding(slot, b + ats))
    ensures !TouchedIn(slot, ats) ==> (Outstanding(slot, a + ats) <==> Outstanding(slot, a))
    decreases |ats|
  {
    if ats == [] {
      assert a + ats == a;
    } else {
      var init, last := ats[..|ats|-1], ats[|ats|-1];
      assert a + ats == a + init + [last] && b + ats == b + init + [last];
      OutstandingStep(slot, a + init, last);
      OutstandingStep(slot, b + init, last);
      LastTouchDecides(slot, a, b, init);
      if TouchedIn(slot, init) {
        var i :| 0 <= i < |init| && Touches(slot, init[i]);
        assert Touches(slot, ats[i]);
      } else {
        forall i | 0 <= i < |ats| ensures Touches(slot, ats[i]) <==> i == |ats| - 1 && Touches(slot, last) {
          assert i < |init| ==> ats[i] == init[i];
        }
      }
    }
  }

  /** Where the slot's statements take turns, each of them flips the slot. */
  lemma TouchFlips(slot: Slot, done: seq<nat>, at: nat)
    requires Alternates(slot, done + [at]) && Touches(slot, at)
    ensures Outstanding(slot, done + [at]) <==> !Outstanding(slot, done)
  {
    var all := done + [at];
    OutstandingMeansHeld(slot, all);
    assert all[..|all|] == all && all[..|done|] == done;
    assert Balance(slot, all[..|all|]) == if Outstanding(slot, all[..|all|]) then 1 else 0;
    assert Balance(slot, all[..|done|]) == if Outstanding(slot, all[..|done|]) then 1 else 0;
  }

  lemma AlternatesBefore(slot: Slot, done: seq<nat>, n: nat)
    requires Alternates(slot, done) && n <= |done|
    ensures Alternates(slot, done[..n])
  {
    forall m | 0 <= m <= n ensures 0 <= Balance(slot, done[..n][..m]) <= 1 {
      assert done[..n][..m] == done[..m];
    }
  }

  /** The mask agrees with what really happened exactly when lateness is harmless to the slot. */
  lemma HarmlessIsExact(slot: Slot, s: Story)
    requires s.Late? && Alternates(slot, s.before + [s.late] + s.after)
    ensures (Outstanding(slot, Paid(s)) <==> Outstanding(slot, s.before + s.after)) <==> Harmless(slot, s)
  {
    var before, late, after := s.before, s.late, s.after;
    var all := before + [late] + after;
    FlipsOrNot(slot, before, late, after);
    if s.brace || after == [] {
      LastTouchDecides(slot, before + [late], before, after);
      LastTouchDecides(slot, before, before + [late], after);
      assert Paid(s) == before + [late] + after;
    } else {
      var mid, last := after[..|after|-1], after[|after|-1];
      assert after == mid + [last];
      assert Paid(s) == before + [late] + mid;
      assert before + after == before + mid + [last] && all == before + [late] + mid + [last];
      LastTouchDecides(slot, before + [late], before, mid);
      LastTouchDecides(slot, before, before + [late], mid);
      OutstandingStep(slot, before + mid, last);
      OutstandingStep(slot, before + [late] + mid, last);
      if Touches(slot, last) {
        TouchFlips(slot, before + [late] + mid, last);
      }
    }
  }

  lemma FlipsOrNot(slot: Slot, before: seq<nat>, late: nat, after: seq<nat>)
    requires Alternates(slot, before + [late] + after)
    ensures (Outstanding(slot, before + [late]) <==> Outstanding(slot, before)) <==> !Touches(slot, late)
  {
    var all := before + [late] + after;
    assert all[..|before| + 1] == before + [late];
    AlternatesBefore(slot, all, |before| + 1);
    if Touches(slot, late) {
      TouchFlips(slot, before, late);
    } else {
      OutstandingStep(slot, before, late);
    }
  }

  /** A fault that found no jump of its own. At a late jump the cleanup block undoes exactly what the function really
      still holds if and only if lateness is harmless to every slot that owns a bit; when the function has returned
      before any jump, if and only if it holds nothing. */
  lemma LateCleanup(plan: Plan, s: Story, out: Outcome)
    requires AllBelow(plan.order, |plan.slots|) && (forall k: nat :: k < |plan.slots| ==> k in plan.order)
    requires s.Late? && forall k: nat :: k < |plan.slots| ==> Alternates(plan.slots[k], s.before + [s.late] + s.after)
    ensures UndoneSlots(plan, s, out) == OwedSlots(plan, plan.order, s.before + s.after) <==>
            forall k: nat :: k < |plan.slots| && k < 64 ==>
              if out.Unwinding? then Harmless(plan.slots[k], s) else !Outstanding(plan.slots[k], s.before + s.after)
  {
    hide Outstanding, Harmless, Alternates, OwedSlots;
    var held := s.before + s.after;
    if out.Unwinding? {
      SameOwed(plan, plan.order, Paid(s), held);
      forall k: nat | k < |plan.slots|
        ensures (Outstanding(plan.slots[k], Paid(s)) <==> Outstanding(plan.slots[k], held))
                <==> Harmless(plan.slots[k], s)
      {
        HarmlessIsExact(plan.slots[k], s);
      }
    } else {
      NothingHeld(plan, plan.order, held);
    }
  }

  lemma NothingHeld(plan: Plan, order: seq<nat>, done: seq<nat>)
    requires AllBelow(order, |plan.slots|) && forall k: nat :: k < |plan.slots| ==> k in order
    ensures OwedSlots(plan, order, done) == [] <==>
            forall k: nat :: k < |plan.slots| && k < 64 ==> !Outstanding(plan.slots[k], done)
  {
    hide Outstanding, OwedSlots;
    var owed := OwedSlots(plan, order, done);
    forall k: nat ensures k in owed <==> k in order && k < 64 && k < |plan.slots| && Outstanding(plan.slots[k], done) {
      OwedMember(plan, order, done, k);
    }
    if owed != [] {
      assert owed[0] in owed;
    }
  }

  /** Two histories leave the same slots outstanding, of those that own a bit. */
  ghost predicate Agree(plan: Plan, a: seq<nat>, b: seq<nat>) {
    forall k: nat :: k < |plan.slots| && k < 64 ==> (Outstanding(plan.slots[k], a) <==> Outstanding(plan.slots[k], b))
  }

  /** Two histories owe the undos of the same slots exactly when they agree on every slot that owns a bit. */
  lemma SameOwed(plan: Plan, order: seq<nat>, a: seq<nat>, b: seq<nat>)
    requires AllBelow(order, |plan.slots|) && forall k: nat :: k < |plan.slots| ==> k in order
    ensures OwedSlots(plan, order, a) == OwedSlots(plan, order, b) <==> Agree(plan, a, b)
  {
    hide Outstanding, OwedSlots;
    if OwedSlots(plan, order, a) == OwedSlots(plan, order, b) {
      forall k: nat | k < |plan.slots| && k < 64
        ensures Outstanding(plan.slots[k], a) <==> Outstanding(plan.slots[k], b)
      {
        OwedMember(plan, order, a, k);
        OwedMember(plan, order, b, k);
      }
    }
    if Agree(plan, a, b) {
      AgreeingOwe(plan, order, a, b);
    }
  }

  lemma {:induction false} AgreeingOwe(plan: Plan, order: seq<nat>, a: seq<nat>, b: seq<nat>)
    requires AllBelow(order, |plan.slots|)
    requires Agree(plan, a, b)
    ensures OwedSlots(plan, order, a) == OwedSlots(plan, order, b)
  {
    hide Outstanding;
    if order != [] {
      AgreeingOwe(plan, order[1..], a, b);
    }
  }
}
