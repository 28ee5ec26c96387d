/** What an instrumented C function does when it runs. */
module Runtime {
  import opened Basics
  import opened MaskWord

  // A run is driven by a finite list of environment events: whether a statement completes or faults, which way a
  // condition goes. Loops, calls and gotos each consume an event, so quantifying over all event lists covers every
  // finite prefix of every run, including runs that never end.

  /** Text inserted by the generator behind a statement or behind an opening brace. */
  datatype Item = Hgoto | SetStamp(id: bv64) | UnsetStamp(id: bv64)

  /** A C function body. `at` names the source location behind the statement or the opening brace. */
  datatype Code =
    | Skip
    | Stmt(at: nat, callee: Option<nat>, after: seq<Item>)
    | Seq(first: Code, second: Code)
    | Block(at: nat, open: seq<Item>, body: Code)
    | If(test: nat, yes: Code, no: Code)
    | While(test: nat, body: Code)
    | Resume(rest: Code, loop: Code)  // the rest of a loop iteration that a goto entered in the middle
    | Label(name: nat)
    | Goto(target: nat)
    | Break
    | Continue
    | Return(at: nat)
    | Cleanup  // where the cleanup block has been inserted

  /** One line of the cleanup block: `if (hecaton_check_bit(hecaton_pairmask, id)) undo;` */
  datatype Guard = Guard(id: bv64, undo: nat)

  datatype Fn = Fn(body: Code, closing: bool, cleanup: seq<Guard>)

  /** Functions call each other by number. */
  type Program = seq<Fn>

  /** A fault names the statement it strikes by its location, or the conditional whose test it strikes; elsewhere there
      is no such run. */
  datatype Event = Done | Fault(at: nat) | Took(branch: bool) | TookFaulting(test: nat, branch: bool) | Jumped

  /** What does not change during a run: interrupt context and the global `hecaton_global_check`. */
  datatype Env = Env(irq: bool, check: int)

  datatype Obs =
    | Enter(fn: nat)
    | Did(at: nat)
    | Faulted(guarded: bool)  // guarded: a jump to the cleanup stands where execution continues
    | Missed  // a callee was unwound but no jump to the cleanup stands behind the call
    | Result(at: nat)
    | Leave(fn: nat)
    | Undid(undo: nat, hf: bool)
    | Unwound(fn: nat)
    | Reboot(fn: nat)

  datatype State = State(hf: bool, mask: bv64, trace: seq<Obs>)

  datatype Outcome =
    | Normal | Broke | Continued | Jump(target: nat) | Returned | ToCleanup
    | Unwinding | Rebooted | Cut

  datatype Res = Res(out: Outcome, st: State, rest: seq<Event>)

  /** `hgoto(x)`: jump iff the fault flag is set outside interrupt context. */
  predicate Fires(env: Env, hf: bool) {
    hf && !env.irq
  }

  predicate HasJump(items: seq<Item>) {
    items != [] && items[0].Hgoto?
  }

  /** Runs inserted text; the flag says that a jump to the cleanup was taken. */
  function RunItems(env: Env, hf: bool, items: seq<Item>, mask: bv64): (bool, bv64) {
    if items == [] then (false, mask)
    else match items[0]
      case Hgoto => if Fires(env, hf) then (true, mask) else RunItems(env, hf, items[1..], mask)
      case SetStamp(id) => RunItems(env, hf, items[1..], SetBit(mask, id))
      case UnsetStamp(id) => RunItems(env, hf, items[1..], UnsetBit(mask, id))
  }

  function AfterItems(env: Env, items: seq<Item>, st: State, rest: seq<Event>): (r: Res) {
    var (jumped, mask) := RunItems(env, st.hf, items, st.mask);
    Res(if jumped then ToCleanup else Normal, st.(mask := mask), rest)
  }

  function Log(st: State, o: Obs): State {
    st.(trace := st.trace + [o])
  }

  predicate OpensWithJump(c: Code) {
    c.Block? && HasJump(c.open)
  }

  /** The condition of an if statement or a loop; faulting leaves the flag set and takes an arbitrary branch. */
  function Decide(test: nat, arm: bool -> Code, st: State, ev: seq<Event>): Option<(bool, State)> {
    if ev == [] then None
    else match ev[0]
      case Took(b) => Some((b, st))
      case TookFaulting(t, b) =>
        if t == test then Some((b, Log(st.(hf := true), Faulted(OpensWithJump(arm(b)))))) else None
      case _ => None
  }

  function Exec(P: Program, env: Env, c: Code, st: State, ev: seq<Event>): (r: Res)
    ensures |r.rest| <= |ev|
    ensures r.out.Jump? ==> |r.rest| < |ev|
    ensures st.trace <= r.st.trace
    decreases |ev|, 1, c
  {
    match c
    case Skip => Res(Normal, st, ev)
    case Label(_) => Res(Normal, st, ev)
    case Break => Res(Broke, st, ev)
    case Continue => Res(Continued, st, ev)
    case Return(at) => Res(Returned, Log(st, Result(at)), ev)
    case Goto(l) => if ev == [] || !ev[0].Jumped? then Res(Cut, st, ev) else Res(Jump(l), st, ev[1..])
    case Cleanup => Res(if env.check < 0 then ToCleanup else Normal, st, ev)
    case Seq(a, b) =>
      var r := Exec(P, env, a, st, ev);
      if r.out.Normal? then Exec(P, env, b, r.st, r.rest) else r
    case Block(at, open, body) =>
      var entered := AfterItems(env, open, if st.hf then st else Log(st, Did(at)), ev);
      if entered.out.Normal? then Exec(P, env, body, entered.st, ev) else entered
    case If(test, a, b) =>
      (match Decide(test, x => if x then a else b, st, ev)
       case None => Res(Cut, st, ev)
       case Some((x, st')) => Exec(P, env, if x then a else b, st', ev[1..]))
    case While(test, body) =>
      (match Decide(test, x => if x then body else Skip, st, ev)
       case None => Res(Cut, st, ev)
       case Some((x, st')) =>
         if x then AfterIteration(P, env, c, Exec(P, env, body, st', ev[1..])) else Res(Normal, st', ev[1..]))
    case Resume(rest, loop) =>
      var r := Exec(P, env, rest, st, ev);
      if r.out.Normal? || r.out.Continued? then Exec(P, env, loop, r.st, r.rest)
      else if r.out.Broke? then r.(out := Normal) else r
    case Stmt(at, callee, after) => ExecStmt(P, env, c, st, ev)
  }

  /** A statement and the text inserted behind it. The location counts as reached only when the statement completes:
      not when it faults, and not when it is a call that comes back unwound. */
  function ExecStmt(P: Program, env: Env, c: Code, st: State, ev: seq<Event>): (r: Res)
    requires c.Stmt?
    ensures |r.rest| <= |ev| && !r.out.Jump?
    ensures st.trace <= r.st.trace
    decreases |ev|, 0
  {
    if ev == [] then Res(Cut, st, ev)
    else if ev[0] == Fault(c.at) then
      AfterItems(env, c.after, Log(st.(hf := true), Faulted(HasJump(c.after))), ev[1..])
    else if !ev[0].Done? then Res(Cut, st, ev)
    else if c.callee.Some? && c.callee.value < |P| then
      AfterCall(env, c, Call(P, env, c.callee.value, st, ev[1..]))
    else AfterItems(env, c.after, Log(st, Did(c.at)), ev[1..])
  }

  function AfterCall(env: Env, c: Code, r: Res): (r': Res)
    requires c.Stmt?
    ensures |r'.rest| <= |r.rest| && r.st.trace <= r'.st.trace
    ensures r'.out.Jump? ==> r.out.Jump?
  {
    match r.out
    case Returned => AfterItems(env, c.after, Log(r.st, Did(c.at)), r.rest)
    case Unwinding => AfterItems(env, c.after, if HasJump(c.after) then r.st else Log(r.st, Missed), r.rest)
    case _ => r
  }

  function AfterIteration(P: Program, env: Env, loop: Code, r: Res): (r': Res)
    ensures |r'.rest| <= |r.rest|
    ensures r'.out.Jump? && !r.out.Jump? ==> |r'.rest| < |r.rest|
    ensures r.st.trace <= r'.st.trace
    decreases |r.rest|, 2, loop
  {
    if r.out.Normal? || r.out.Continued? then Exec(P, env, loop, r.st, r.rest)
    else if r.out.Broke? then r.(out := Normal) else r
  }

  /** Runs function f from its first statement with its own mask; the caller's mask is untouched. */
  function Call(P: Program, env: Env, f: nat, st: State, ev: seq<Event>): (r: Res)
    requires f < |P|
    ensures |r.rest| <= |ev|
    ensures r.st.mask == st.mask && (r.out.Returned? || r.out.Unwinding? || r.out.Rebooted? || r.out.Cut?)
    ensures st.trace <= r.st.trace
    decreases |ev|, 3
  {
    var r := RunBody(P, env, f, P[f].body, Log(st.(mask := 0), Enter(f)), ev);
    EndCall(P, f, st.mask, r)
  }

  /** The end of a call whose body ended with r: a plain return, or the cleanup block and the flag up again. */
  function EndCall(P: Program, f: nat, mask: bv64, r: Res): (r': Res)
    requires f < |P|
    ensures r.st.trace <= r'.st.trace && r'.rest == r.rest && r'.st.mask == mask
    ensures r'.out.Returned? || r'.out.Unwinding? || r'.out.Rebooted? || r'.out.Cut?
  {
    var st := r.st.(mask := mask);
    match r.out
    case Rebooted => r.(st := st)
    case Cut => r.(st := st)
    case ToCleanup =>
      if P[f].closing then Res(Rebooted, Log(st, Reboot(f)), r.rest)
      else Res(Unwinding, Log(RunCleanup(P[f].cleanup, r.st), Unwound(f)).(hf := true, mask := mask), r.rest)
    case _ => Res(Returned, Log(st, Leave(f)), r.rest)
  }

  /** Runs c as the rest of f's body, following gotos to the labels of f. */
  function RunBody(P: Program, env: Env, f: nat, c: Code, st: State, ev: seq<Event>): (r: Res)
    requires f < |P|
    ensures |r.rest| <= |ev|
    ensures st.trace <= r.st.trace
    decreases |ev|, 2, c
  {
    var r := Exec(P, env, c, st, ev);
    if r.out.Jump? then
      match FromLabel(P[f].body, r.out.target)
      case None => r.(out := Cut)
      case Some(c') => RunBody(P, env, f, c', r.st, r.rest)
    else r
  }

  /** The cleanup block: clears the flag, then runs the guarded undos in order. */
  function RunCleanup(guards: seq<Guard>, st: State): (st': State)
    ensures st.trace <= st'.trace
  {
    RunGuards(guards, st.(hf := false))
  }

  function RunGuards(guards: seq<Guard>, st: State): (st': State)
    ensures st.trace <= st'.trace
  {
    if guards == [] then st
    else
      RunGuards(guards[1..], if CheckBit(st.mask, guards[0].id) then Log(st, Undid(guards[0].undo, st.hf)) else st)
  }

  /** What remains to be run when a goto lands on a label inside c. */
  function FromLabel(c: Code, l: nat): Option<Code> {
    match c
    case Label(n) => if n == l then Some(Skip) else None
    case Seq(a, b) =>
      (match FromLabel(a, l)
       case Some(x) => Some(Seq(x, b))
       case None => FromLabel(b, l))
    case Block(_, _, body) => FromLabel(body, l)
    case If(_, a, b) =>
      (match FromLabel(a, l)
       case Some(x) => Some(x)
       case None => FromLabel(b, l))
    case While(_, body) =>
      (match FromLabel(body, l)
       case Some(x) => Some(Resume(x, c))
       case None => None)
    case _ => None
  }
}
