/** A fault undoes, frame by frame and innermost first, exactly what the interrupted functions still had to undo. */
module Unwinding {
  import opened MaskWord
  import opened Runtime
  import opened Jumps

  /** One allocated slot of a function: the locations where its pair completes, the locations where its undo
      completes, and the undo statement that the cleanup block runs. Inner slots have no undo locations. */
  datatype Slot = Slot(pairs: seq<nat>, undos: seq<nat>, undo: nat)

  /** The slots of a function in allocation order and the order in which the cleanup block lists them. */
  datatype Plan = Plan(slots: seq<Slot>, order: seq<nat>)

  // ----- what the program text promises -----

  /** The stamps that belong behind location `at`, for slots k, k+1, ... */
  function StampsFrom(slots: seq<Slot>, k: nat, at: nat): seq<Item>
    decreases |slots| - k
  {
    if k >= |slots| then []
    else
      Hits(slots[k].undos, at, UnsetStamp(SlotId(k))) + Hits(slots[k].pairs, at, SetStamp(SlotId(k)))
      + StampsFrom(slots, k + 1, at)
  }

  function DropJumps(items: seq<Item>): seq<Item> {
    if HasJump(items) then DropJumps(items[1..]) else items
  }

  /** Jumps, if any, come before the stamps, and the stamps are those of the plan. */
  predicate ItemsConform(items: seq<Item>, slots: seq<Slot>, at: nat) {
    DropJumps(items) == StampsFrom(slots, 0, at)
  }

  predicate CodeConforms(c: Code, slots: seq<Slot>) {
    match c
    case Stmt(at, _, after) => ItemsConform(after, slots, at)
    case Seq(a, b) => CodeConforms(a, slots) && CodeConforms(b, slots)
    case Block(at, open, body) => ItemsConform(open, slots, at) && CodeConforms(body, slots)
    case If(_, a, b) => CodeConforms(a, slots) && CodeConforms(b, slots)
    case While(_, body) => CodeConforms(body, slots)
    case Resume(rest, loop) => CodeConforms(rest, slots) && CodeConforms(loop, slots)
    case _ => true
  }

  predicate AllBelow(order: seq<nat>, n: nat) {
    forall i :: 0 <= i < |order| ==> order[i] < n
  }

  function GuardsOf(plan: Plan, order: seq<nat>): seq<Guard>
    requires AllBelow(order, |plan.slots|)
  {
    if order == [] then []
    else [Guard(SlotId(order[0]), plan.slots[order[0]].undo)] + GuardsOf(plan, order[1..])
  }

  predicate NoJumps(items: seq<Item>) {
    items != [] ==> !items[0].Hgoto? && NoJumps(items[1..])
  }

  predicate JumpFree(c: Code) {
    match c
    case Stmt(_, _, after) => NoJumps(after)
    case Seq(a, b) => JumpFree(a) && JumpFree(b)
    case Block(_, open, body) => NoJumps(open) && JumpFree(body)
    case If(_, a, b) => JumpFree(a) && JumpFree(b)
    case While(_, body) => JumpFree(body)
    case Resume(rest, loop) => JumpFree(rest) && JumpFree(loop)
    case _ => true
  }

  /** The function's text is that of the plan; only a function without any jump may do without its cleanup lines. */
  predicate FnConforms(fn: Fn, plan: Plan) {
    && AllBelow(plan.order, |plan.slots|)
    && CodeConforms(fn.body, plan.slots)
    && (fn.cleanup == GuardsOf(plan, plan.order) || JumpFree(fn.body))
  }

  ghost predicate Conforms(P: Program, plans: seq<Plan>) {
    |P| == |plans| && forall f: nat :: f < |P| ==> FnConforms(P[f], plans[f])
  }

  // ----- what a trace says about the call stack -----

  /** An active function and the statements it has completed so far. */
  datatype Frame = Frame(fn: nat, done: seq<nat>)

  function StepFrames(fs: seq<Frame>, o: Obs): seq<Frame> {
    match o
    case Enter(f) => fs + [Frame(f, [])]
    case Did(at) => if fs == [] then fs else fs[..|fs|-1] + [Frame(fs[|fs|-1].fn, fs[|fs|-1].done + [at])]
    case Leave(_) => if fs == [] then fs else fs[..|fs|-1]
    case Unwound(_) => if fs == [] then fs else fs[..|fs|-1]
    case _ => fs
  }

  /** The call stack after a trace, outermost function first. */
  function Frames(tr: seq<Obs>): seq<Frame> {
    if tr == [] then [] else StepFrames(Frames(tr[..|tr|-1]), tr[|tr|-1])
  }

  /** A slot is outstanding when the last of its statements that completed was a pair. */
  predicate Outstanding(slot: Slot, done: seq<nat>) {
    done != [] &&
    var last := done[|done|-1];
    if last in slot.pairs then true
    else last !in slot.undos && Outstanding(slot, done[..|done|-1])
  }

  ghost function OutstandingSet(slots: seq<Slot>, done: seq<nat>): set<nat> {
    set k: nat | k < |slots| && Outstanding(slots[k], done)
  }

  /** The undos the cleanup block owes to a frame, in the block's order; slot 64 and later ones own no mask bit. */
  function Owed(plan: Plan, order: seq<nat>, done: seq<nat>): seq<Obs>
    requires AllBelow(order, |plan.slots|)
  {
    if order == [] then []
    else
      var k := order[0];
      (if k < 64 && Outstanding(plan.slots[k], done) then [Undid(plan.slots[k].undo, false)] else [])
      + Owed(plan, order[1..], done)
  }

  /** How one function leaves after a fault: it runs what it owes with the fault flag down and passes the fault on; a
      function of the closing kind restarts the machine instead. */
  function LeaveBy(P: Program, plans: seq<Plan>, fr: Frame): seq<Obs> {
    if fr.fn >= |P| || fr.fn >= |plans| || !AllBelow(plans[fr.fn].order, |plans[fr.fn].slots|) then []
    else if P[fr.fn].closing then [Reboot(fr.fn)]
    else Owed(plans[fr.fn], plans[fr.fn].order, fr.done) + [Unwound(fr.fn)]
  }

  predicate Closing(P: Program, fr: Frame) {
    fr.fn < |P| && P[fr.fn].closing
  }

  /** How the frames above depth d are left after a fault: innermost first, until a restart ends everything. */
  function Unwind(P: Program, plans: seq<Plan>, fs: seq<Frame>, d: nat): seq<Obs> {
    if |fs| <= d then []
    else
      var top := fs[|fs|-1];
      LeaveBy(P, plans, top) + if Closing(P, top) then [] else Unwind(P, plans, fs[..|fs|-1], d)
  }

  ghost predicate NoFault(tr: seq<Obs>) {
    forall o :: o in tr ==> !o.Faulted?
  }

  /** Every fault, and every call that came back unwound, found a jump in the way of going on. */
  ghost predicate AllGuarded(tr: seq<Obs>) {
    Faulted(false) !in tr && Missed !in tr
  }

  ghost predicate Known(P: Program, fs: seq<Frame>) {
    forall i :: 0 <= i < |fs| ==> fs[i].fn < |P|
  }

  ghost predicate NoneClosing(P: Program, fs: seq<Frame>, d: nat) {
    forall i :: d <= i < |fs| ==> !Closing(P, fs[i])
  }

  /** tr is: the first fault after pre, then the unwinding of the frames of pre above depth d. */
  ghost predicate Struck(P: Program, plans: seq<Plan>, d: nat, tr: seq<Obs>, pre: seq<Obs>) {
    && NoFault(pre) && Known(P, Frames(pre)) && d <= |Frames(pre)|
    && tr == pre + [Faulted(true)] + Unwind(P, plans, Frames(pre), d)
  }

  // ----- stamps keep the mask in step with the trace -----

  function StampOf(op: MaskOp): Item {
    match op
    case Set(k) => SetStamp(SlotId(k))
    case Unset(k) => UnsetStamp(SlotId(k))
  }

  function Effect(op: MaskOp, s: set<nat>): set<nat> {
    match op
    case Set(k) => s + {k}
    case Unset(k) => s - {k}
  }

  lemma RunStamp(env: Env, hf: bool, op: MaskOp, items: seq<Item>, m: bv64, s: set<nat>) returns (m': bv64)
    requires Represents(m, s)
    ensures RunItems(env, hf, [StampOf(op)] + items, m) == RunItems(env, hf, items, m')
    ensures Represents(m', Effect(op, s))
  {
    hide Represents, SlotId;
    assert ([StampOf(op)] + items)[1..] == items;
    match op
    case Set(k) => m' := SetBit(m, SlotId(k)); SetBitInserts(m, s, k);
    case Unset(k) => m' := UnsetBit(m, SlotId(k)); UnsetBitRemoves(m, s, k);
  }

  lemma {:induction false} HitsRun(env: Env, hf: bool, locs: seq<nat>, at: nat, op: MaskOp, rest: seq<Item>, m: bv64,
                                   s: set<nat>) returns (m': bv64)
    requires Represents(m, s)
    ensures RunItems(env, hf, Hits(locs, at, StampOf(op)) + rest, m) == RunItems(env, hf, rest, m')
    ensures Represents(m', if at in locs then Effect(op, s) else s)
  {
    hide Represents, SlotId;
    var hits := Hits(locs, at, StampOf(op));
    if locs == [] {
      assert hits + rest == rest;
      m' := m;
    } else if locs[0] == at {
      var more := Hits(locs[1..], at, StampOf(op));
      assert hits + rest == [StampOf(op)] + (more + rest);
      m' := RunStamp(env, hf, op, more + rest, m, s);
      m' := HitsRun(env, hf, locs[1..], at, op, rest, m', Effect(op, s));
      assert Effect(op, Effect(op, s)) == Effect(op, s);
    } else {
      assert hits == Hits(locs[1..], at, StampOf(op));
      m' := HitsRun(env, hf, locs[1..], at, op, rest, m, s);
    }
  }

  /** The outstanding slots when the stamps of location `at` have run for the slots below k only. */
  ghost function PartlyStamped(slots: seq<Slot>, k: nat, done: seq<nat>, at: nat): set<nat> {
    set j: nat | j < |slots| && Outstanding(slots[j], if j < k then done + [at] else done)
  }

  lemma OutstandingStep(slot: Slot, done: seq<nat>, at: nat)
    ensures Outstanding(slot, done + [at]) <==> at in slot.pairs || (at !in slot.undos && Outstanding(slot, done))
  {
    assert (done + [at])[..|done|] == done;
  }

  lemma {:induction false} StampsRun(env: Env, hf: bool, slots: seq<Slot>, k: nat, done: seq<nat>, at: nat, m: bv64)
    requires k <= |slots| && Represents(m, PartlyStamped(slots, k, done, at))
    ensures var (jumped, m') := RunItems(env, hf, StampsFrom(slots, k, at), m);
            !jumped && Represents(m', OutstandingSet(slots, done + [at]))
    decreases |slots| - k
  {
    hide Represents, SlotId;
    if k == |slots| {
      assert PartlyStamped(slots, k, done, at) == OutstandingSet(slots, done + [at]);
    } else {
      var m' := OneSlotRun(env, hf, slots, k, done, at, m);
      StampsRun(env, hf, slots, k + 1, done, at, m');
    }
  }

  lemma OneSlotRun(env: Env, hf: bool, slots: seq<Slot>, k: nat, done: seq<nat>, at: nat, m: bv64) returns (m': bv64)
    requires k < |slots| && Represents(m, PartlyStamped(slots, k, done, at))
    ensures RunItems(env, hf, StampsFrom(slots, k, at), m) == RunItems(env, hf, StampsFrom(slots, k + 1, at), m')
    ensures Represents(m', PartlyStamped(slots, k + 1, done, at))
  {
    hide Represents, SlotId;
    var s := PartlyStamped(slots, k, done, at);
    var unsets, sets := Hits(slots[k].undos, at, StampOf(Unset(k))), Hits(slots[k].pairs, at, StampOf(Set(k)));
    var more := StampsFrom(slots, k + 1, at);
    assert StampsFrom(slots, k, at) == unsets + (sets + more);
    var m1 := HitsRun(env, hf, slots[k].undos, at, Unset(k), sets + more, m, s);
    var s1 := if at in slots[k].undos then s - {k} else s;
    m' := HitsRun(env, hf, slots[k].pairs, at, Set(k), more, m1, s1);
    OneSlotSet(slots, k, done, at, s1);
  }

  lemma OneSlotSet(slots: seq<Slot>, k: nat, done: seq<nat>, at: nat, s1: set<nat>)
    requires k < |slots|
    requires var s := PartlyStamped(slots, k, done, at); s1 == if at in slots[k].undos then s - {k} else s
    ensures (if at in slots[k].pairs then s1 + {k} else s1) == PartlyStamped(slots, k + 1, done, at)
  {
    OutstandingStep(slots[k], done, at);
  }

  lemma {:induction false} JumpsPass(env: Env, items: seq<Item>, m: bv64)
    ensures RunItems(env, false, items, m) == RunItems(env, false, DropJumps(items), m)
  {
    hide Represents, SlotId;
    if HasJump(items) {
      JumpsPass(env, items[1..], m);
    }
  }

  /** When a statement completes without a fault, its stamps bring the mask to the new set of outstanding slots. */
  lemma StampsTrack(env: Env, items: seq<Item>, slots: seq<Slot>, done: seq<nat>, at: nat, m: bv64)
    requires ItemsConform(items, slots, at) && Represents(m, OutstandingSet(slots, done))
    ensures var (jumped, m') := RunItems(env, false, items, m);
            !jumped && Represents(m', OutstandingSet(slots, done + [at]))
  {
    hide Represents, SlotId;
    JumpsPass(env, items, m);
    assert PartlyStamped(slots, 0, done, at) == OutstandingSet(slots, done);
    StampsRun(env, false, slots, 0, done, at, m);
  }

  // ----- the cleanup block pays what is owed -----

  lemma {:induction false} CleanupPays(plan: Plan, order: seq<nat>, done: seq<nat>, st: State)
    requires AllBelow(order, |plan.slots|)
    requires !st.hf && Represents(st.mask, OutstandingSet(plan.slots, done))
    ensures RunGuards(GuardsOf(plan, order), st) == st.(trace := st.trace + Owed(plan, order, done))
  {
    if order == [] {
      assert st.trace + [] == st.trace;
    } else {
      var k := order[0];
      var g := Guard(SlotId(k), plan.slots[k].undo);
      var guards := GuardsOf(plan, order);
      assert guards[0] == g && guards[1..] == GuardsOf(plan, order[1..]);
      assert CheckBit(st.mask, SlotId(k)) <==> k in OutstandingSet(plan.slots, done) && k < 64;
      var st' := if CheckBit(st.mask, g.id) then Log(st, Undid(g.undo, st.hf)) else st;
      CleanupPays(plan, order[1..], done, st');
      assert st'.trace + Owed(plan, order[1..], done) == st.trace + Owed(plan, order, done);
    }
  }

  // ----- frames along a run -----

  lemma FramesLog(tr: seq<Obs>, o: Obs)
    ensures Frames(tr + [o]) == StepFrames(Frames(tr), o)
  {
    assert (tr + [o])[..|tr|] == tr;
  }

  /** Running with the flag down inside f: no fault yet, f is the innermost frame and the mask is in step. */
  ghost predicate Live(P: Program, plans: seq<Plan>, f: nat, st: State) {
    && f < |P| == |plans| && !st.hf && NoFault(st.trace) && Known(P, Frames(st.trace))
    && Frames(st.trace) != []
    && var top := Frames(st.trace)[|Frames(st.trace)|-1];
       top.fn == f && Represents(st.mask, OutstandingSet(plans[f].slots, top.done))
  }

  /** The two stacks agree below their frame number d. */
  ghost predicate SameBelow(fs: seq<Frame>, gs: seq<Frame>, d: nat) {
    d <= |fs| && d <= |gs| && fs[..d] == gs[..d]
  }

  /** A fault after pre has been carried to f, where a jump to the cleanup was taken. */
  ghost predicate Caught(P: Program, plans: seq<Plan>, f: nat, fs: seq<Frame>, st: State, pre: seq<Obs>) {
    && fs != [] && st.hf && Struck(P, plans, |fs|, st.trace, pre)
    && NoneClosing(P, Frames(pre), |fs|)
    && SameBelow(fs, Frames(pre), |fs| - 1)
    && f < |P| == |plans|
    && var top := Frames(pre)[|fs|-1];
       top.fn == f && Represents(st.mask, OutstandingSet(plans[f].slots, top.done))
  }

  /** A fault after pre has reached a function of the closing kind above depth d. */
  ghost predicate Restarted(P: Program, plans: seq<Plan>, d: nat, tr: seq<Obs>, pre: seq<Obs>) {
    Struck(P, plans, d, tr, pre) && !NoneClosing(P, Frames(pre), d)
  }

  ghost predicate ExecKeeps(P: Program, plans: seq<Plan>, f: nat, st: State, r: Res) {
    var fs := Frames(st.trace);
    match r.out
    case ToCleanup => exists pre :: Caught(P, plans, f, fs, r.st, pre)
    case Rebooted => exists pre :: Restarted(P, plans, |fs|, r.st.trace, pre)
    case Unwinding => false
    case Cut => true
    case _ => Live(P, plans, f, r.st) && |Frames(r.st.trace)| == |fs| && SameBelow(fs, Frames(r.st.trace), |fs| - 1)
  }

  ghost predicate CallKeeps(P: Program, plans: seq<Plan>, st: State, r: Res) {
    var fs := Frames(st.trace);
    match r.out
    case Returned => !r.st.hf && NoFault(r.st.trace) && Frames(r.st.trace) == fs
    case Unwinding =>
      r.st.hf && exists pre :: Struck(P, plans, |fs|, r.st.trace, pre) && NoneClosing(P, Frames(pre), |fs|)
                               && SameBelow(fs, Frames(pre), |fs|)
    case Rebooted => exists pre :: Restarted(P, plans, |fs|, r.st.trace, pre)
    case Cut => true
    case _ => false
  }
}
