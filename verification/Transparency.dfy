/** The instrumented source and the source it was made from: without a fault they cannot be told apart. */
module Transparency {
  import opened Tree
  import opened Jumps
  import opened Runtime
  import opened Refinement
  import opened Padding
  import opened Stamps

  // ----- taking the inserted text out again -----

  lemma NothingBehind(at: nat)
    ensures Behind(map[], at) == []
  {
  }

  /** A statement that contains no others that run. */
  predicate IsPlain(s: Stmt) {
    !s.kind.Compound? && !s.kind.Labelled? && !IsConditional(s)
  }

  lemma ErasePlain(s: Stmt, edits: map<nat, seq<Item>>, callees: map<string, nat>)
    requires IsPlain(s)
    ensures Erase(Emit(s, edits, callees)) == Emit(s, map[], callees)
  {
    NothingBehind(s.at);
    hide Behind;
  }

  lemma {:induction false} EraseEmit(s: Stmt, edits: map<nat, seq<Item>>, callees: map<string, nat>)
    ensures Erase(Emit(s, edits, callees)) == Emit(s, map[], callees)
    decreases s, 1
  {
    hide Behind, EmitAll;
    if IsPlain(s) {
      hide Emit;
      ErasePlain(s, edits, callees);
    } else if s.kind.Compound? {
      NothingBehind(s.kind.open);
      EraseEmitAll(s.kids, edits, callees);
    } else if s.kind.Labelled? {
      EraseEmitAll(s.kids, edits, callees);
    } else if s.kind.IfStmt? {
      if |s.kids| >= 2 {
        EraseEmit(s.kids[1], edits, callees);
        if |s.kids| > 2 {
          EraseEmit(s.kids[2], edits, callees);
        }
      }
    } else if s.kids != [] {
      EraseEmit(s.kids[|s.kids|-1], edits, callees);
    }
  }

  lemma {:induction false} EraseEmitAll(ss: seq<Stmt>, edits: map<nat, seq<Item>>, callees: map<string, nat>)
    ensures Erase(EmitAll(ss, edits, callees)) == EmitAll(ss, map[], callees)
    decreases ss, 0
  {
    if ss != [] {
      EraseEmit(ss[0], edits, callees);
      EraseEmitAll(ss[1..], edits, callees);
    }
  }

  lemma {:induction false} EraseTop(kids: seq<Stmt>, k: nat, edits: map<nat, seq<Item>>, callees: map<string, nat>)
    ensures Padded(Erase(EmitTop(kids, k, edits, callees)), EmitAll(kids, map[], callees))
  {
    hide Emit;
    if kids == [] || k == 0 {
      EraseEmitAll(kids, edits, callees);
    } else {
      EraseEmit(kids[0], edits, callees);
      EraseTop(kids[1..], k - 1, edits, callees);
    }
  }

  // ----- the whole source -----

  /** A function of the source with what the generator has inserted into it. */
  datatype Instrumented = Instrumented(body: Stmt, edits: map<nat, seq<Item>>, closing: bool, cleanup: seq<Guard>)

  function Generated(fns: seq<Instrumented>, callees: map<string, nat>): Program {
    seq(|fns|, i requires 0 <= i < |fns| =>
      Fn(EmitBody(fns[i].body, fns[i].edits, callees), fns[i].closing, fns[i].cleanup))
  }

  /** The functions as they were written. */
  function Original(fns: seq<Instrumented>, callees: map<string, nat>): Program {
    seq(|fns|, i requires 0 <= i < |fns| => Fn(EmitAll(fns[i].body.kids, map[], callees), false, []))
  }

  /** Whatever has been inserted where, and whatever the cleanup blocks hold: as long as no fault occurs and the global
      check is not negative, every function of the instrumented source makes the same observations and ends the same
      way as that function of the original source, on every run and at every moment of it. */
  lemma InstrumentationIsTransparent(fns: seq<Instrumented>, callees: map<string, nat>, env: Env, f: nat,
          ev: seq<Event>)
    requires f < |fns| && env.check >= 0 && FaultFree(ev)
    ensures var r, s := Run(Generated(fns, callees), env, f, ev), Run(Original(fns, callees), env, f, ev);
            r.out == s.out && r.st == s.st && r.rest == s.rest && (r.out.Returned? || r.out.Cut?)
  {
    hide EmitBody, EmitAll, Exec;
    var P, O := Generated(fns, callees), Original(fns, callees);
    FaultFreeRefinement(P, env, f, ev);
    forall i: nat | i < |fns| ensures SameOrPadded(EraseProgram(P)[i].body, O[i].body) {
      ErasedBody(fns[i], callees);
    }
    PaddedCall(EraseProgram(P), O, env, f, State(false, 0, []), ev);
  }

  lemma ErasedBody(fn: Instrumented, callees: map<string, nat>)
    ensures Padded(Erase(EmitBody(fn.body, fn.edits, callees)), EmitAll(fn.body.kids, map[], callees))
  {
    EraseTop(fn.body.kids, CleanupPlace(fn.body.kids), fn.edits, callees);
  }
}
