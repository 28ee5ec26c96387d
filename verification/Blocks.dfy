/** The error-handling blocks: read off the statement tree, judged and filtered, and which undos are new. */
module Blocks {
  import opened Basics
  import opened Tree

  datatype EhcType = GotoEhc | ReturnEhc | CondEhc | Maybe | GotoMaybe | Verified | Denied

  /** The head of an error-handling block: the branch of an if statement. */
  datatype Head = Head(kind: EhcType, stmt: Stmt)

  /** An undo statement that appears first in some block. */
  datatype NewStmt = NewStmt(stmt: Stmt, pair: Option<Stmt>, id: bv64, isOuter: bool, kind: EhcType)

  datatype EHC = EHC(kind: EhcType, head: Stmt, stmts: seq<Stmt>, firsts: seq<NewStmt>)

  // ----- reading a block off the tree -----

  /** The statement behind its labels. */
  function Core(s: Stmt): Stmt {
    if s.kind.Labelled? && s.kids != [] then Core(s.kids[0]) else s
  }

  function Cores(ss: seq<Stmt>): seq<Stmt> {
    if ss == [] then [] else [Core(ss[0])] + Cores(ss[1..])
  }

  /** The siblings from the labelled statement on. */
  function From(siblings: seq<Stmt>, target: nat): seq<Stmt> {
    if siblings == [] then []
    else if siblings[0].id == target then siblings
    else From(siblings[1..], target)
  }

  /** The beginning of a list up to and including its first return statement that carries no label. */
  function UpToReturn(ss: seq<Stmt>): seq<Stmt> {
    if ss == [] then []
    else if ss[0].kind.Return? then [ss[0]]
    else [ss[0]] + UpToReturn(ss[1..])
  }

  function Collected(siblings: seq<Stmt>, target: nat): seq<Stmt> {
    Cores(UpToReturn(From(siblings, target)))
  }

  function NotGoto(): Stmt -> bool {
    (s: Stmt) => !s.kind.Goto?
  }

  function LastGoto(ss: seq<Stmt>): Option<nat> {
    if ss == [] then None
    else match LastGoto(ss[1..])
      case Some(t) => Some(t)
      case None => if ss[0].kind.Goto? then Some(ss[0].kind.target) else None
  }

  /** It is the last goto that counts. */
  lemma {:induction false} LastGotoIs(ss: seq<Stmt>, i: nat)
    requires i < |ss| && ss[i].kind.Goto? && forall j :: i < j < |ss| ==> !ss[j].kind.Goto?
    ensures LastGoto(ss) == Some(ss[i].kind.target)
  {
    if i > 0 {
      LastGotoIs(ss[1..], i - 1);
    } else {
      NoGoto(ss[1..]);
    }
  }

  lemma {:induction false} NoGoto(ss: seq<Stmt>)
    ensures LastGoto(ss) == None <==> forall s :: s in ss ==> !s.kind.Goto?
  {
    if ss != [] {
      NoGoto(ss[1..]);
      assert ss == [ss[0]] + ss[1..];
    }
  }

  predicate IsGotoHead(h: Head) {
    h.kind.GotoEhc? || h.kind.GotoMaybe?
  }

  /** A goto head has a goto among its own statements whose label stands in the function; without one the source reads
      an uninitialised pointer. */
  predicate Resolvable(h: Head, body: Stmt) {
    IsGotoHead(h) ==>
      LastGoto(h.stmt.kids).Some? && ParentOn(Path([body], LastGoto(h.stmt.kids).value)).Some?
  }

  function BlockOf(h: Head, body: Stmt): seq<Stmt>
    requires Resolvable(h, body)
  {
    if IsGotoHead(h) then
      var target := LastGoto(h.stmt.kids).value;
      Filter(h.stmt.kids, NotGoto()) + Collected(ParentOn(Path([body], target)).value.kids, target)
    else if h.stmt.kind.Compound? then h.stmt.kids
    else [h.stmt]
  }

  /** Every statement of a block stands in the body. */
  lemma BlockInside(h: Head, body: Stmt, s: Stmt)
    requires Resolvable(h, body) && h.stmt in Below(body) && s in BlockOf(h, body)
    ensures s in Below(body)
  {
    if s in h.stmt.kids {
      var i :| 0 <= i < |h.stmt.kids| && h.stmt.kids[i] == s;
      RootInside(h.stmt.kids, i);
      KidsInside(body.kids, h.stmt, s);
    } else if IsGotoHead(h) {
      var target := LastGoto(h.stmt.kids).value;
      var siblings := ParentOn(Path([body], target)).value.kids;
      FilterMembers(h.stmt.kids, NotGoto(), s);
      var i := CollectedInside(siblings, target, s);
      SiblingsInside(body, target, i);
      CoreInside(siblings[i]);
      if s != siblings[i] {
        KidsInside(body.kids, siblings[i], s);
      }
    }
  }

  lemma {:induction false} CoreInside(s: Stmt)
    ensures Core(s) == s || Core(s) in Flatten(s.kids)
  {
    if s.kind.Labelled? && s.kids != [] {
      CoreInside(s.kids[0]);
      RootInside(s.kids, 0);
      if Core(s) != s.kids[0] {
        KidsInside(s.kids, s.kids[0], Core(s));
      }
    }
  }

  lemma {:induction false} CollectedInside(siblings: seq<Stmt>, target: nat, s: Stmt) returns (i: nat)
    requires s in Collected(siblings, target)
    ensures i < |siblings| && Core(siblings[i]) == s
  {
    if siblings[0].id == target {
      i := CoresInside(siblings, s);
    } else {
      i := CollectedInside(siblings[1..], target, s);
      i := i + 1;
    }
  }

  lemma {:induction false} CoresInside(ss: seq<Stmt>, s: Stmt) returns (i: nat)
    requires s in Cores(UpToReturn(ss))
    ensures i < |ss| && Core(ss[i]) == s
  {
    var up := UpToReturn(ss);
    if Core(ss[0]) == s {
      i := 0;
    } else {
      assert up[1..] == if ss[0].kind.Return? then [] else UpToReturn(ss[1..]);
      i := CoresInside(ss[1..], s);
      i := i + 1;
    }
  }

  lemma SiblingsInside(body: Stmt, target: nat, i: nat)
    requires ParentOn(Path([body], target)).Some?
    requires i < |ParentOn(Path([body], target)).value.kids|
    ensures ParentOn(Path([body], target)).value.kids[i] in Below(body)
  {
    var path := Path([body], target);
    var parent := path[|path|-2];
    assert [body][1..] == [];
    assert Flatten([body]) == [body] + Flatten(body.kids) + [];
    PathInside([body], target, parent);
    RootInside(parent.kids, i);
    if parent != body {
      KidsInside(body.kids, parent, parent.kids[i]);
    }
  }

  lemma {:induction false} CoresLength(ss: seq<Stmt>)
    ensures |Cores(ss)| == |ss|
  {
    if ss != [] {
      CoresLength(ss[1..]);
    }
  }

  lemma {:induction false} CoresAppend(a: seq<Stmt>, b: seq<Stmt>)
    ensures Cores(a + b) == Cores(a) + Cores(b)
  {
    if a == [] {
      assert a + b == b;
    } else {
      assert (a + b)[1..] == a[1..] + b;
      CoresAppend(a[1..], b);
    }
  }

  // ----- judging the doubtful blocks -----

  predicate IsDoubtful(e: EHC) {
    e.kind.Maybe? || e.kind.GotoMaybe?
  }

  function CountCalls(ss: seq<Stmt>): nat {
    if ss == [] then 0 else (if ss[0].kind.Call? then 1 else 0) + CountCalls(ss[1..])
  }

  function CountKnown(ss: seq<Stmt>, undoFns: seq<string>): nat {
    if ss == [] then 0
    else (if ss[0].kind.Call? && ss[0].kind.fn in undoFns then 1 else 0) + CountKnown(ss[1..], undoFns)
  }

  predicate HasLabel(ss: seq<Stmt>) {
    exists s :: s in ss && s.kind.Labelled?
  }

  /** The verdicts, with the two counters the source never resets between blocks. */
  function Judge(ehcs: seq<EHC>, undoFns: seq<string>, total: nat, verified: nat): seq<EHC> {
    if ehcs == [] then []
    else if !IsDoubtful(ehcs[0]) then [ehcs[0]] + Judge(ehcs[1..], undoFns, total, verified)
    else
      var total', verified' := total + CountCalls(ehcs[0].stmts), verified + CountKnown(ehcs[0].stmts, undoFns);
      [ehcs[0].(kind := Verdict(ehcs[0].stmts, total', verified'))] + Judge(ehcs[1..], undoFns, total', verified')
  }

  function Verdict(ss: seq<Stmt>, total: nat, verified: nat): EhcType {
    if HasLabel(ss) then Denied else if verified >= 1 || total == 0 then Verified else Denied
  }

  predicate HasCall(ss: seq<Stmt>) {
    exists s :: s in ss && s.kind.Call?
  }

  predicate HasKnownCall(ss: seq<Stmt>, undoFns: seq<string>) {
    exists s :: s in ss && s.kind.Call? && s.kind.fn in undoFns
  }

  lemma {:induction false} CountsTell(ss: seq<Stmt>, undoFns: seq<string>)
    ensures CountCalls(ss) > 0 <==> HasCall(ss)
    ensures CountKnown(ss, undoFns) > 0 <==> HasKnownCall(ss, undoFns)
  {
    if ss != [] {
      CountsTell(ss[1..], undoFns);
      assert ss == [ss[0]] + ss[1..];
    }
  }

  predicate CallUpTo(ehcs: seq<EHC>, i: nat) {
    exists j :: 0 <= j <= i && j < |ehcs| && IsDoubtful(ehcs[j]) && HasCall(ehcs[j].stmts)
  }

  predicate KnownUpTo(ehcs: seq<EHC>, undoFns: seq<string>, i: nat) {
    exists j :: 0 <= j <= i && j < |ehcs| && IsDoubtful(ehcs[j]) && HasKnownCall(ehcs[j].stmts, undoFns)
  }

  /** What the verdict on a block depends on, given what the counters held before. */
  predicate JudgedAs(e: EHC, e': EHC, calls: bool, known: bool) {
    e' == e.(kind := e'.kind) &&
    if !IsDoubtful(e) then e'.kind == e.kind
    else if HasLabel(e.stmts) then e'.kind.Denied?
    else if calls && !known then e'.kind.Denied?
    else e'.kind.Verified?
  }

  lemma JudgeFirst(ehcs: seq<EHC>, undoFns: seq<string>, total: nat, verified: nat)
    requires ehcs != []
    ensures var t := if IsDoubtful(ehcs[0]) then total + CountCalls(ehcs[0].stmts) else total;
            var v := if IsDoubtful(ehcs[0]) then verified + CountKnown(ehcs[0].stmts, undoFns) else verified;
            var r := Judge(ehcs, undoFns, total, verified);
            r != [] && r[1..] == Judge(ehcs[1..], undoFns, t, v) && JudgedAs(ehcs[0], r[0], t > 0, v > 0)
  {
  }

  /** A doubtful block is denied exactly when it holds a label, or when some doubtful block up to it has a call but
      none of them has a call the database knows. */
  lemma {:induction false} JudgeAt(ehcs: seq<EHC>, undoFns: seq<string>, total: nat, verified: nat, i: nat)
    requires i < |ehcs|
    ensures |Judge(ehcs, undoFns, total, verified)| == |ehcs|
    ensures JudgedAs(ehcs[i], Judge(ehcs, undoFns, total, verified)[i],
                     total > 0 || CallUpTo(ehcs, i), verified > 0 || KnownUpTo(ehcs, undoFns, i))
    decreases ehcs
  {
    hide Judge, JudgedAs, HasCall, HasKnownCall, CountCalls, CountKnown;
    var first := ehcs[0];
    CountsTell(first.stmts, undoFns);
    var t := if IsDoubtful(first) then total + CountCalls(first.stmts) else total;
    var v := if IsDoubtful(first) then verified + CountKnown(first.stmts, undoFns) else verified;
    JudgeFirst(ehcs, undoFns, total, verified);
    if |ehcs| == 1 {
      JudgeNone(undoFns, t, v);
      assert ehcs[1..] == [];
    } else {
      JudgeAt(ehcs[1..], undoFns, t, v, if i == 0 then 0 else i - 1);
      if i > 0 {
        hide CallUpTo, KnownUpTo;
        UpToShift(ehcs, undoFns, i);
      }
    }
  }

  /** The verdicts, kind by kind. A block that is neither MAYBE nor GOTO_MAYBE keeps its kind. Of the others, one that
      holds a labelled statement is denied, and so is one up to which some such block holds a call and none holds a call
      that the database knows; the rest are verified. */
  lemma VerdictsAre(ehcs: seq<EHC>, undoFns: seq<string>, i: nat)
    requires i < |ehcs|
    ensures |Judge(ehcs, undoFns, 0, 0)| == |ehcs|
    ensures var e, e' := ehcs[i], Judge(ehcs, undoFns, 0, 0)[i];
            && e'.stmts == e.stmts && e'.head == e.head && e'.firsts == e.firsts
            && if !e.kind.Maybe? && !e.kind.GotoMaybe? then e'.kind == e.kind
               else if exists s :: s in e.stmts && s.kind.Labelled? then e'.kind.Denied?
               else if (exists j, s :: 0 <= j <= i && (ehcs[j].kind.Maybe? || ehcs[j].kind.GotoMaybe?)
                                       && s in ehcs[j].stmts && s.kind.Call?)
                       && !exists j, s :: 0 <= j <= i && (ehcs[j].kind.Maybe? || ehcs[j].kind.GotoMaybe?)
                                          && s in ehcs[j].stmts && s.kind.Call? && s.kind.fn in undoFns
               then e'.kind.Denied?
               else e'.kind.Verified?
  {
    hide Judge;
    JudgeAt(ehcs, undoFns, 0, 0, i);
    CallsUpTo(ehcs, undoFns, i);
  }

  lemma CallsUpTo(ehcs: seq<EHC>, undoFns: seq<string>, i: nat)
    requires i < |ehcs|
    ensures CallUpTo(ehcs, i) <==>
            exists j, s :: 0 <= j <= i && (ehcs[j].kind.Maybe? || ehcs[j].kind.GotoMaybe?)
                           && s in ehcs[j].stmts && s.kind.Call?
    ensures KnownUpTo(ehcs, undoFns, i) <==>
            exists j, s :: 0 <= j <= i && (ehcs[j].kind.Maybe? || ehcs[j].kind.GotoMaybe?)
                           && s in ehcs[j].stmts && s.kind.Call? && s.kind.fn in undoFns
  {
    if CallUpTo(ehcs, i) {
      var j :| 0 <= j <= i && IsDoubtful(ehcs[j]) && HasCall(ehcs[j].stmts);
      var s :| s in ehcs[j].stmts && s.kind.Call?;
    }
    if j, s :| 0 <= j <= i && (ehcs[j].kind.Maybe? || ehcs[j].kind.GotoMaybe?) && s in ehcs[j].stmts && s.kind.Call? {
      assert HasCall(ehcs[j].stmts);
    }
    if KnownUpTo(ehcs, undoFns, i) {
      var j :| 0 <= j <= i && IsDoubtful(ehcs[j]) && HasKnownCall(ehcs[j].stmts, undoFns);
      var s :| s in ehcs[j].stmts && s.kind.Call? && s.kind.fn in undoFns;
    }
    if j, s :| 0 <= j <= i && (ehcs[j].kind.Maybe? || ehcs[j].kind.GotoMaybe?) && s in ehcs[j].stmts && s.kind.Call?
               && s.kind.fn in undoFns
    {
      assert HasKnownCall(ehcs[j].stmts, undoFns);
    }
  }

  lemma JudgeNone(undoFns: seq<string>, total: nat, verified: nat)
    ensures Judge([], undoFns, total, verified) == []
  {
  }

  lemma UpToShift(ehcs: seq<EHC>, undoFns: seq<string>, i: nat)
    requires 0 < i < |ehcs|
    ensures CallUpTo(ehcs, i) <==> CallUpTo(ehcs[1..], i - 1) || (IsDoubtful(ehcs[0]) && HasCall(ehcs[0].stmts))
    ensures KnownUpTo(ehcs, undoFns, i) <==>
              KnownUpTo(ehcs[1..], undoFns, i - 1) || (IsDoubtful(ehcs[0]) && HasKnownCall(ehcs[0].stmts, undoFns))
  {
    hide HasCall, HasKnownCall;
    var rest := ehcs[1..];
    assert forall j :: 0 <= j < |rest| ==> rest[j] == ehcs[j + 1];
    if CallUpTo(ehcs, i) {
      var j :| 0 <= j <= i && IsDoubtful(ehcs[j]) && HasCall(ehcs[j].stmts);
      assert j > 0 ==> IsDoubtful(rest[j - 1]) && HasCall(rest[j - 1].stmts);
    }
    if CallUpTo(rest, i - 1) {
      var j :| 0 <= j <= i - 1 && IsDoubtful(rest[j]) && HasCall(rest[j].stmts);
      assert IsDoubtful(ehcs[j + 1]) && HasCall(ehcs[j + 1].stmts);
    }
    if KnownUpTo(ehcs, undoFns, i) {
      var j :| 0 <= j <= i && IsDoubtful(ehcs[j]) && HasKnownCall(ehcs[j].stmts, undoFns);
      assert j > 0 ==> IsDoubtful(rest[j - 1]) && HasKnownCall(rest[j - 1].stmts, undoFns);
    }
    if KnownUpTo(rest, undoFns, i - 1) {
      var j :| 0 <= j <= i - 1 && IsDoubtful(rest[j]) && HasKnownCall(rest[j].stmts, undoFns);
      assert IsDoubtful(ehcs[j + 1]) && HasKnownCall(ehcs[j + 1].stmts, undoFns);
    }
  }

  // ----- filtering -----

  const BLACKLIST: seq<string> := [
    "print", "pr_", "break", "continue", "goto", "__builtin_", "rc =", "rc=", "dev_err", "dev_crit", "dev_info",
    "dev_warn", "cam_debug_log", "cam_get_module_name", "dump_stack", "ERR_CAST", "ERR_PTR", "IS_ERR", "netdev_err",
    "netdev_info", "netdev_priv", "netdev_warn", "pd_engine_log", "PTR_ERR", "sde_evtlog_log", "strcmp", "strlcpy",
    "strncasecmp", "strncmp", "panic", "write_seqcount_end"]

  const LOOPS: seq<string> := ["for(", "for (", "while(", "while ("]

  const LOCKS: seq<string> := [
    "mutex_lock", "mutex_lock_interruptible", "_raw_read_lock", "spin_lock", "spin_lock_bh", "spin_lock_irq",
    "write_seqcount_begin"]

  function NotBlacklisted(): Stmt -> bool {
    (s: Stmt) => !MentionsAny(s.text, BLACKLIST)
  }

  function NotLoop(): Stmt -> bool {
    (s: Stmt) => !MentionsAny(s.source, LOOPS)
  }

  function NotLock(): Stmt -> bool {
    (s: Stmt) => !MentionsAny(s.text, LOCKS)
  }

  /** The variables that plain `return v;` statements of a list hand back. */
  function ReturnedVars(ss: seq<Stmt>): set<string> {
    if ss == [] then {}
    else (match ss[0].kind case Return(Some(v)) => {v} case _ => {}) + ReturnedVars(ss[1..])
  }

  predicate SetsToNegative(s: Stmt, vars: set<string>) {
    s.kind.Assign? && s.kind.negated.Some? && s.kind.negated.value in vars
  }

  function NoReturn(vars: set<string>): Stmt -> bool {
    (s: Stmt) => !s.kind.Return? && !SetsToNegative(s, vars)
  }

  /** Drops the returns, and the assignments of negative literals to the variables they return. */
  function WithoutReturns(ss: seq<Stmt>): seq<Stmt> {
    Filter(ss, NoReturn(ReturnedVars(ss)))
  }

  /** Everything the filter passes do to the statements of one block. */
  function Sieve(ss: seq<Stmt>): seq<Stmt> {
    Filter(Filter(Filter(ss, NotBlacklisted()), NotLoop()), NotLock())
  }

  function Filtered(ss: seq<Stmt>): seq<Stmt> {
    WithoutReturns(Sieve(ss))
  }

  lemma SieveAppend(a: seq<Stmt>, b: seq<Stmt>)
    ensures Sieve(a + b) == Sieve(a) + Sieve(b)
  {
    var a1, b1 := Filter(a, NotBlacklisted()), Filter(b, NotBlacklisted());
    FilterAppend(a, b, NotBlacklisted());
    FilterAppend(a1, b1, NotLoop());
    FilterAppend(Filter(a1, NotLoop()), Filter(b1, NotLoop()), NotLock());
  }

  lemma SieveMembers(ss: seq<Stmt>, s: Stmt)
    ensures s in Sieve(ss) ==> s in ss
  {
    FilterMembers(ss, NotBlacklisted(), s);
    FilterMembers(Filter(ss, NotBlacklisted()), NotLoop(), s);
    FilterMembers(Filter(Filter(ss, NotBlacklisted()), NotLoop()), NotLock(), s);
  }

  lemma SieveIs(ss: seq<Stmt>, s: Stmt)
    ensures s in Sieve(ss) <==> s in ss && !MentionsAny(s.text, BLACKLIST) && !MentionsAny(s.source, LOOPS)
                                && !MentionsAny(s.text, LOCKS)
  {
    hide MentionsAny, BLACKLIST, LOOPS, LOCKS;
    FilterMembers(ss, NotBlacklisted(), s);
    FilterMembers(Filter(ss, NotBlacklisted()), NotLoop(), s);
    FilterMembers(Filter(Filter(ss, NotBlacklisted()), NotLoop()), NotLock(), s);
  }

  lemma {:induction false} ReturnedAre(ss: seq<Stmt>, v: string)
    ensures v in ReturnedVars(ss) <==> exists r :: r in ss && r.kind == Return(Some(v))
  {
    if ss != [] {
      ReturnedAre(ss[1..], v);
      assert ss == [ss[0]] + ss[1..];
      if ss[0].kind == Return(Some(v)) {
        assert ss[0] in ss;
      }
    }
  }

  /** What the filter passes leave of a block: the statements that print without a blacklisted word or a lock, read
      without a loop in the file, and are neither a return nor the assignment of a negative literal to a variable that a
      `return v;` of the block hands back, one that prints harmlessly, too. */
  lemma FilteredAre(ss: seq<Stmt>, s: Stmt)
    ensures s in Filtered(ss) <==>
            && s in ss && !s.kind.Return?
            && !MentionsAny(s.text, BLACKLIST) && !MentionsAny(s.source, LOOPS) && !MentionsAny(s.text, LOCKS)
            && !(s.kind.Assign? && s.kind.negated.Some?
                 && exists r :: r in ss && r.kind == Return(Some(s.kind.negated.value))
                                && !MentionsAny(r.text, BLACKLIST) && !MentionsAny(r.source, LOOPS)
                                && !MentionsAny(r.text, LOCKS))
  {
    hide MentionsAny, BLACKLIST, LOOPS, LOCKS, Sieve, ReturnedVars;
    SieveIs(ss, s);
    FilterMembers(Sieve(ss), NoReturn(ReturnedVars(Sieve(ss))), s);
    if s.kind.Assign? && s.kind.negated.Some? {
      var v := s.kind.negated.value;
      ReturnedAre(Sieve(ss), v);
      forall r ensures r in Sieve(ss) <==> r in ss && !MentionsAny(r.text, BLACKLIST) && !MentionsAny(r.source, LOOPS)
                                           && !MentionsAny(r.text, LOCKS) {
        SieveIs(ss, r);
      }
    }
  }

  predicate NoReturns(ss: seq<Stmt>) {
    forall s :: s in ss ==> !s.kind.Return?
  }

  lemma {:induction false} NothingReturned(r: seq<Stmt>, a: seq<Stmt>)
    requires NoReturns(r)
    ensures ReturnedVars(r + a) == ReturnedVars(a)
  {
    if r == [] {
      assert r + a == a;
    } else {
      assert (r + a)[1..] == r[1..] + a;
      NothingReturned(r[1..], a);
    }
  }

  /** A block that only adds statements in front of another one, none of them a return, still does so after the
      filter passes. */
  lemma FiltersKeepSuffix(r: seq<Stmt>, a: seq<Stmt>)
    requires NoReturns(r)
    ensures Filtered(r + a) == Filter(Sieve(r), NoReturn(ReturnedVars(Sieve(a)))) + Filtered(a)
  {
    SieveAppend(r, a);
    forall s | s in Sieve(r) ensures !s.kind.Return? {
      SieveMembers(r, s);
    }
    NothingReturned(Sieve(r), Sieve(a));
    FilterAppend(Sieve(r), Sieve(a), NoReturn(ReturnedVars(Sieve(a))));
  }

  // ----- first occurrences -----

  /** A block before block n, denied or not, holds a statement that prints as `text`. */
  predicate SeenBefore(ehcs: seq<EHC>, n: nat, text: string) {
    exists j :: 0 <= j < n && j < |ehcs| && TextIn(text, ehcs[j].stmts)
  }

  predicate TextIn(text: string, ss: seq<Stmt>) {
    exists s :: s in ss && s.text == text
  }

  /** The statement and its parent both begin inside a macro expansion. */
  predicate InMacro(s: Stmt, body: Stmt) {
    var parent := ParentOn(Path([body], s.id));
    parent.Some? && s.macro && parent.value.macro
  }

  function IsNew(ehcs: seq<EHC>, n: nat, body: Stmt): Stmt -> bool {
    (s: Stmt) => !SeenBefore(ehcs, n, s.text) && !InMacro(s, body)
  }

  /** The new statements of block n, in block order. */
  function NewIn(ehcs: seq<EHC>, n: nat, body: Stmt): seq<NewStmt>
    requires n < |ehcs|
  {
    if ehcs[n].kind.Denied? then [] else AsNew(Filter(ehcs[n].stmts, IsNew(ehcs, n, body)), ehcs[n].kind)
  }

  function AsNew(ss: seq<Stmt>, kind: EhcType): seq<NewStmt> {
    if ss == [] then [] else [NewStmt(ss[0], None, 0, false, kind)] + AsNew(ss[1..], kind)
  }

  lemma {:induction false} AsNewAt(ss: seq<Stmt>, kind: EhcType)
    ensures |AsNew(ss, kind)| == |ss|
    ensures forall i :: 0 <= i < |ss| ==> AsNew(ss, kind)[i] == NewStmt(ss[i], None, 0, false, kind)
  {
    if ss != [] {
      AsNewAt(ss[1..], kind);
    }
  }
}
