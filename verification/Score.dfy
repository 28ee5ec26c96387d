/** The confidence score of a function. Three phases keep their tallies through one flag. */
module Score {
  import opened Basics
  import opened Tree
  import opened Blocks
  import opened Slots
  import opened Outers
  import opened Similarity

  const NUMBER_EHC := 20
  const MAYBE_BLOCKS := 8
  const FNC_POINTER := 30
  const MISSING_EHC := 10

  datatype Phase = Pointer | Missing | MaybeBlock

  function FlagOf(p: Phase): int {
    match p
    case Pointer => 1392
    case Missing => 1399
    case MaybeBlock => 1371
  }

  function Weight(p: Phase): int {
    match p
    case Pointer => FNC_POINTER
    case Missing => MISSING_EHC
    case MaybeBlock => MAYBE_BLOCKS
  }

  // ----- tallies through a flag -----

  function Count(events: seq<Phase>, p: Phase): nat {
    if events == [] then 0 else Count(events[..|events|-1], p) + if events[|events|-1] == p then 1 else 0
  }

  /** The length of the last unbroken run of events of a phase: what its tally holds. */
  function LastRun(events: seq<Phase>, p: Phase): nat {
    if events == [] then 0
    else
      var init, last := events[..|events|-1], events[|events|-1];
      if last != p then LastRun(init, p)
      else if init != [] && init[|init|-1] == p then LastRun(init, p) + 1
      else 1
  }

  /** The phase is not taken up again once another one has followed it. */
  predicate Unbroken(events: seq<Phase>, p: Phase) {
    forall k :: 0 < k < |events| && events[k - 1] != p && events[k] == p ==> p !in events[..k]
  }

  lemma {:induction false} CountNone(events: seq<Phase>, p: Phase)
    ensures Count(events, p) == 0 <==> p !in events
  {
    if events != [] {
      var init, last := events[..|events|-1], events[|events|-1];
      CountNone(init, p);
      assert events == init + [last];
    }
  }

  lemma UnbrokenSnoc(init: seq<Phase>, last: Phase, p: Phase)
    ensures Unbroken(init + [last], p) <==>
            Unbroken(init, p) && (last == p && init != [] && init[|init|-1] != p ==> p !in init)
  {
    var all, n := init + [last], |init|;
    assert forall k :: 0 <= k < n ==> all[k] == init[k];
    assert forall k :: 0 <= k <= n ==> all[..k] == init[..k];
    assert init[..n] == init;
  }

  /** A tally kept through the shared flag is the true count exactly when its phase is never interrupted. */
  lemma {:induction false} FlagTallies(events: seq<Phase>, p: Phase)
    ensures LastRun(events, p) <= Count(events, p)
    ensures LastRun(events, p) == Count(events, p) <==> Unbroken(events, p)
  {
    if events != [] {
      hide Unbroken;
      var init, last := events[..|events|-1], events[|events|-1];
      FlagTallies(init, p);
      CountNone(init, p);
      assert events == init + [last];
      UnbrokenSnoc(init, last, p);
    }
  }

  lemma LastRunSnoc(events: seq<Phase>, last: Phase, p: Phase)
    ensures LastRun(events + [last], p) ==
            if last != p then LastRun(events, p)
            else if events != [] && events[|events|-1] == p then LastRun(events, p) + 1
            else 1
  {
    assert (events + [last])[..|events|] == events;
  }

  class ConfidenceScore {
    var scoreNumberEhc: int
    var scoreMissingEhc: int
    var scoreMaybeBlocks: int
    var scoreFunctionPointer: int
    var initFlag: int
    ghost var history: seq<Phase>

    ghost predicate Valid()
      reads this
    {
      && (if history == [] then initFlag == 0 else initFlag == FlagOf(history[|history|-1]))
      && scoreFunctionPointer == -Weight(Pointer) * LastRun(history, Pointer)
      && scoreMissingEhc == -Weight(Missing) * LastRun(history, Missing)
      && scoreMaybeBlocks == -Weight(MaybeBlock) * LastRun(history, MaybeBlock)
    }

    constructor ()
      ensures Valid() && history == [] && scoreNumberEhc == 0
    {
      scoreNumberEhc, scoreMissingEhc, scoreMaybeBlocks, scoreFunctionPointer, initFlag := 0, 0, 0, 0, 0;
      history := [];
    }

    method CountPointer()
      requires Valid()
      modifies this
      ensures Valid() && history == old(history) + [Pointer] && scoreNumberEhc == old(scoreNumberEhc)
    {
      LastRunSnoc(history, Pointer, Pointer);
      LastRunSnoc(history, Pointer, Missing);
      LastRunSnoc(history, Pointer, MaybeBlock);
      if initFlag == 1392 {
        scoreFunctionPointer := scoreFunctionPointer - FNC_POINTER;
      } else {
        scoreFunctionPointer := -FNC_POINTER;
        initFlag := 1392;
      }
      history := history + [Pointer];
    }

    method CountMissing()
      requires Valid()
      modifies this
      ensures Valid() && history == old(history) + [Missing] && scoreNumberEhc == old(scoreNumberEhc)
    {
      LastRunSnoc(history, Missing, Pointer);
      LastRunSnoc(history, Missing, Missing);
      LastRunSnoc(history, Missing, MaybeBlock);
      if initFlag != 1399 {
        scoreMissingEhc := -MISSING_EHC;
        initFlag := 1399;
      } else {
        scoreMissingEhc := scoreMissingEhc - MISSING_EHC;
      }
      history := history + [Missing];
    }

    method CountMaybe()
      requires Valid()
      modifies this
      ensures Valid() && history == old(history) + [MaybeBlock] && scoreNumberEhc == old(scoreNumberEhc)
    {
      LastRunSnoc(history, MaybeBlock, Pointer);
      LastRunSnoc(history, MaybeBlock, Missing);
      LastRunSnoc(history, MaybeBlock, MaybeBlock);
      if initFlag == 1371 {
        scoreMaybeBlocks := scoreMaybeBlocks - MAYBE_BLOCKS;
      } else {
        scoreMaybeBlocks := -MAYBE_BLOCKS;
        initFlag := 1371;
      }
      history := history + [MaybeBlock];
    }

    method NumberSlots(index: nat)
      requires Valid() && scoreNumberEhc == 0
      modifies this`scoreNumberEhc
      ensures Valid() && scoreNumberEhc == -SlotPenalty(index)
    {
      if index > 5 {
        scoreNumberEhc := -NUMBER_EHC;
      }
      if index > 8 {
        scoreNumberEhc := -2 * NUMBER_EHC;
      }
    }

    function OverallScore(): int
      reads this
    {
      100 + scoreNumberEhc + scoreMissingEhc + scoreFunctionPointer + scoreMaybeBlocks
    }
  }

  function SlotPenalty(index: nat): int {
    if index > 8 then 40 else if index > 5 then 20 else 0
  }

  // ----- what the phases count -----

  const KEYWORDS: seq<string> := [
    "get", "create", "init", "register", "lock", "up", "enable", "add", "inc", "alloc", "start", "resume", "connect",
    "map", "enqueue", "prepare", "attach", "beign"]

  /** A call through a member whose text, up to the first parenthesis, has a keyword of acquiring something. */
  function IsPointerCall(): Stmt -> bool {
    (s: Stmt) =>
      (s.kind.Call? || s.kind.IndirectCall?) &&
      match Find(s.source, "(", 0)
      case None => false
      case Some(pos) => Contains(s.source[..pos], "->") && MentionsAny(s.source[..pos], KEYWORDS)
  }

  /** A call of a function that the database pairs with an undo function. */
  datatype OuterSms = OuterSms(fn: string, indexes: seq<nat>)

  predicate HasName(smss: seq<OuterSms>, fn: string) {
    exists sms :: sms in smss && sms.fn == fn
  }

  /** Keeps the first call of each function that the database knows. */
  function Collect(s: Stmt, pairFns: seq<string>, found: seq<OuterSms>): seq<OuterSms> {
    if s.kind.Call? && IndexesOf(pairFns, s.kind.fn, 0) != [] && !HasName(found, s.kind.fn)
    then found + [OuterSms(s.kind.fn, IndexesOf(pairFns, s.kind.fn, 0))]
    else found
  }

  function CollectAll(ss: seq<Stmt>, pairFns: seq<string>, found: seq<OuterSms>): seq<OuterSms>
    decreases ss
  {
    if ss == [] then found else CollectAll(ss[1..], pairFns, Collect(ss[0], pairFns, found))
  }

  lemma {:induction false} CollectAppend(a: seq<Stmt>, b: seq<Stmt>, pairFns: seq<string>, found: seq<OuterSms>)
    ensures CollectAll(a + b, pairFns, found) == CollectAll(b, pairFns, CollectAll(a, pairFns, found))
    decreases a
  {
    hide Collect;
    if a == [] {
      assert a + b == b;
    } else {
      assert (a + b)[1..] == a[1..] + b;
      CollectAppend(a[1..], b, pairFns, Collect(a[0], pairFns, found));
    }
  }

  lemma CollectStep(kids: seq<Stmt>, i: nat, pairFns: seq<string>, found: seq<OuterSms>)
    requires i < |kids|
    ensures CollectAll(Flatten(kids[i..]), pairFns, found) ==
            CollectAll(Flatten(kids[i + 1..]), pairFns,
                       CollectAll(Flatten(kids[i].kids), pairFns, Collect(kids[i], pairFns, found)))
  {
    hide Collect;
    var kid, inside := kids[i], Flatten(kids[i].kids);
    assert kids[i..][1..] == kids[i + 1..];
    assert ([kid] + inside)[1..] == inside;
    CollectAppend([kid] + inside, Flatten(kids[i + 1..]), pairFns, found);
  }

  lemma CollectNothing(pairFns: seq<string>, found: seq<OuterSms>)
    ensures CollectAll(Flatten([]), pairFns, found) == found
  {
  }

  /** The visit over the calls of the body. */
  method OuterSmssRecursiveVisit(stmt: Stmt, pairFns: seq<string>, found0: seq<OuterSms>) returns (found: seq<OuterSms>)
    ensures found == CollectAll(Below(stmt), pairFns, found0)
    decreases stmt
  {
    hide CollectAll, IndexesOf;
    found := found0;
    for i := 0 to |stmt.kids|
      invariant CollectAll(Flatten(stmt.kids[i..]), pairFns, found) == CollectAll(Below(stmt), pairFns, found0)
    {
      var kid := stmt.kids[i];
      CollectStep(stmt.kids, i, pairFns, found);
      if kid.kind.Call? {
        var indexes := IndexesOf(pairFns, kid.kind.fn, 0);
        if indexes != [] {
          var unique := true;
          for j := 0 to |found|
            invariant unique <==> forall k :: 0 <= k < j ==> found[k].fn != kid.kind.fn
          {
            if found[j].fn == kid.kind.fn {
              unique := false;
            }
          }
          if unique {
            found := found + [OuterSms(kid.kind.fn, indexes)];
          }
        }
      }
      found := OuterSmssRecursiveVisit(kid, pairFns, found);
    }
    assert stmt.kids[|stmt.kids|..] == [];
    CollectNothing(pairFns, found);
  }

  predicate EachOnce(smss: seq<OuterSms>) {
    forall i, j :: 0 <= i < j < |smss| ==> smss[i].fn != smss[j].fn
  }

  lemma Known(pairFns: seq<string>, fn: string)
    ensures IndexesOf(pairFns, fn, 0) != [] <==> fn in pairFns
  {
    var indexes := IndexesOf(pairFns, fn, 0);
    if indexes != [] {
      IndexesAre(pairFns, fn, 0, indexes[0]);
      assert indexes[0] in indexes;
    }
    if fn in pairFns {
      var i: nat :| i < |pairFns| && pairFns[i] == fn;
      IndexesAre(pairFns, fn, 0, i);
    }
  }

  /** Every called function that the database knows is found, once, and no other. */
  lemma {:induction false} EachIsFoundOnce(ss: seq<Stmt>, pairFns: seq<string>, found: seq<OuterSms>, fn: string)
    requires EachOnce(found)
    ensures EachOnce(CollectAll(ss, pairFns, found))
    ensures HasName(CollectAll(ss, pairFns, found), fn) <==>
            HasName(found, fn) || (fn in pairFns && exists s :: s in ss && s.kind.Call? && s.kind.fn == fn)
    decreases ss
  {
    hide IndexesOf;
    if ss != [] {
      var more := Collect(ss[0], pairFns, found);
      if ss[0].kind.Call? {
        Known(pairFns, ss[0].kind.fn);
      }
      assert EachOnce(more) by {
        assert forall i :: 0 <= i < |found| ==> found[i] in found;
      }
      if |more| > |found| {
        assert more[|found|] in more && forall sms :: sms in more <==> sms in found || sms == more[|found|];
      }
      EachIsFoundOnce(ss[1..], pairFns, more, fn);
      assert ss == [ss[0]] + ss[1..];
    }
  }

  predicate Undone(sms: OuterSms, outers: seq<Outer>) {
    exists o, x :: o in outers && x in sms.indexes && x in o.indexes
  }

  function CountMissed(smss: seq<OuterSms>, outers: seq<Outer>): nat {
    if smss == [] then 0 else (if Undone(smss[0], outers) then 0 else 1) + CountMissed(smss[1..], outers)
  }

  function CountVerified(firsts: seq<NewStmt>): nat {
    if firsts == [] then 0
    else (if !firsts[0].isOuter && firsts[0].kind.Verified? then 1 else 0) + CountVerified(firsts[1..])
  }

  function CountAllVerified(ehcs: seq<EHC>): nat {
    if ehcs == [] then 0 else CountVerified(ehcs[0].firsts) + CountAllVerified(ehcs[1..])
  }

  function Times(p: Phase, n: nat): seq<Phase> {
    seq(n, _ => p)
  }

  lemma TimesMore(history: seq<Phase>, p: Phase, n: nat)
    ensures history + Times(p, n) + [p] == history + Times(p, n + 1)
  {
  }

  lemma TimesAppend(history: seq<Phase>, p: Phase, n: nat, m: nat)
    ensures history + Times(p, n) + Times(p, m) == history + Times(p, n + m)
  {
  }

  lemma NoTimes(history: seq<Phase>, p: Phase)
    ensures history + Times(p, 0) == history
  {
  }

  /** The number of pointer calls in a forest. */
  function PointerCalls(forest: seq<Stmt>): nat {
    |Filter(Flatten(forest), IsPointerCall())|
  }

  lemma PointerCallsStep(kids: seq<Stmt>, i: nat)
    requires i < |kids|
    ensures PointerCalls(kids[i..]) ==
            (if IsPointerCall()(kids[i]) then 1 else 0) + PointerCalls(kids[i].kids) + PointerCalls(kids[i + 1..])
  {
    var p := IsPointerCall();
    assert kids[i..][1..] == kids[i + 1..];
    FilterAppend([kids[i]] + Flatten(kids[i].kids), Flatten(kids[i + 1..]), p);
    FilterCons(kids[i], Flatten(kids[i].kids), p);
  }

  lemma NoPointerCalls()
    ensures PointerCalls([]) == 0
  {
  }

  method VisitFunctionPointers(stmt: Stmt, score: ConfidenceScore)
    requires score.Valid()
    modifies score
    ensures score.Valid() && score.scoreNumberEhc == old(score.scoreNumberEhc)
    ensures score.history == old(score.history) + Times(Pointer, PointerCalls(stmt.kids))
    decreases stmt
  {
    hide PointerCalls, IsPointerCall, Times;
    ghost var n: nat := 0;
    NoTimes(score.history, Pointer);
    for i := 0 to |stmt.kids|
      invariant score.Valid() && score.scoreNumberEhc == old(score.scoreNumberEhc)
      invariant n + PointerCalls(stmt.kids[i..]) == PointerCalls(stmt.kids)
      invariant score.history == old(score.history) + Times(Pointer, n)
    {
      var kid := stmt.kids[i];
      PointerCallsStep(stmt.kids, i);
      if IsPointerCall()(kid) {
        score.CountPointer();
        TimesMore(old(score.history), Pointer, n);
        n := n + 1;
      }
      VisitFunctionPointers(kid, score);
      TimesAppend(old(score.history), Pointer, n, PointerCalls(kid.kids));
      n := n + PointerCalls(kid.kids);
    }
    assert stmt.kids[|stmt.kids|..] == [];
    NoPointerCalls();
  }

  method ShareIndex(a: seq<nat>, b: seq<nat>) returns (found: bool)
    ensures found <==> exists x :: x in a && x in b
  {
    found := false;
    for i := 0 to |a|
      invariant !found && forall k :: 0 <= k < i ==> a[k] !in b
    {
      for j := 0 to |b|
        invariant !found && forall k :: 0 <= k < j ==> a[i] != b[k]
      {
        if b[j] == a[i] {
          assert a[i] in a && a[i] in b;
          return true;
        }
      }
    }
  }

  method ScoreMissingStatements(smss: seq<OuterSms>, outers: seq<Outer>, score: ConfidenceScore)
    requires score.Valid()
    modifies score
    ensures score.Valid() && score.scoreNumberEhc == old(score.scoreNumberEhc)
    ensures score.history == old(score.history) + Times(Missing, CountMissed(smss, outers))
  {
    hide Undone;
    ghost var n: nat := 0;
    for i := 0 to |smss|
      invariant score.Valid() && score.scoreNumberEhc == old(score.scoreNumberEhc)
      invariant n + CountMissed(smss[i..], outers) == CountMissed(smss, outers)
      invariant score.history == old(score.history) + Times(Missing, n)
    {
      assert smss[i..][1..] == smss[i + 1..];
      var found := IsUndone(smss[i], outers);
      if !found {
        score.CountMissing();
        TimesMore(old(score.history), Missing, n);
        n := n + 1;
      }
    }
  }

  method IsUndone(sms: OuterSms, outers: seq<Outer>) returns (found: bool)
    ensures found <==> Undone(sms, outers)
  {
    found := false;
    for j := 0 to |outers|
      invariant !found && forall k, x :: 0 <= k < j && x in sms.indexes ==> x !in outers[k].indexes
    {
      found := ShareIndex(sms.indexes, outers[j].indexes);
      if found {
        var x :| x in sms.indexes && x in outers[j].indexes;
        assert outers[j] in outers;
        break;
      }
    }
  }

  method ScoreBlock(firsts: seq<NewStmt>, score: ConfidenceScore)
    requires score.Valid()
    modifies score
    ensures score.Valid() && score.scoreNumberEhc == old(score.scoreNumberEhc)
    ensures score.history == old(score.history) + Times(MaybeBlock, CountVerified(firsts))
  {
    ghost var n: nat := 0;
    for i := 0 to |firsts|
      invariant score.Valid() && score.scoreNumberEhc == old(score.scoreNumberEhc)
      invariant n + CountVerified(firsts[i..]) == CountVerified(firsts)
      invariant score.history == old(score.history) + Times(MaybeBlock, n)
    {
      assert firsts[i..][1..] == firsts[i + 1..];
      if firsts[i].isOuter {
        continue;
      }
      if firsts[i].kind.Verified? {
        score.CountMaybe();
        TimesMore(old(score.history), MaybeBlock, n);
        n := n + 1;
      }
    }
  }

  method ScoreBlocks(ehcs: seq<EHC>, score: ConfidenceScore)
    requires score.Valid()
    modifies score
    ensures score.Valid() && score.scoreNumberEhc == old(score.scoreNumberEhc)
    ensures score.history == old(score.history) + Times(MaybeBlock, CountAllVerified(ehcs))
  {
    hide CountVerified;
    ghost var n: nat := 0;
    for b := 0 to |ehcs|
      invariant score.Valid() && score.scoreNumberEhc == old(score.scoreNumberEhc)
      invariant n + CountAllVerified(ehcs[b..]) == CountAllVerified(ehcs)
      invariant score.history == old(score.history) + Times(MaybeBlock, n)
    {
      assert ehcs[b..][1..] == ehcs[b + 1..];
      ScoreBlock(ehcs[b].firsts, score);
      TimesAppend(old(score.history), MaybeBlock, n, CountVerified(ehcs[b].firsts));
      n := n + CountVerified(ehcs[b].firsts);
    }
  }

  /** The events of the three phases, one phase after the other. */
  function ThreePhases(a: nat, b: nat, c: nat): seq<Phase> {
    Times(Pointer, a) + Times(Missing, b) + Times(MaybeBlock, c)
  }

  lemma {:induction false} CountTimes(p: Phase, n: nat, q: Phase)
    ensures Count(Times(p, n), q) == if p == q then n else 0
  {
    if n > 0 {
      CountTimes(p, n - 1, q);
      assert Times(p, n)[..n - 1] == Times(p, n - 1);
    }
  }

  lemma {:induction false} CountAppend(x: seq<Phase>, y: seq<Phase>, p: Phase)
    ensures Count(x + y, p) == Count(x, p) + Count(y, p)
    decreases |y|
  {
    if y == [] {
      assert x + y == x;
    } else {
      assert (x + y)[..|x + y| - 1] == x + y[..|y|-1];
      CountAppend(x, y[..|y|-1], p);
    }
  }

  /** The phases do not interleave, so every tally is a true count. */
  lemma PhasesTally(a: nat, b: nat, c: nat)
    ensures var h := ThreePhases(a, b, c);
            LastRun(h, Pointer) == a && LastRun(h, Missing) == b && LastRun(h, MaybeBlock) == c
  {
    hide LastRun, Count;
    var h := ThreePhases(a, b, c);
    forall i | 0 <= i < |h| ensures h[i] == if i < a then Pointer else if i < a + b then Missing else MaybeBlock {
    }
    forall p ensures LastRun(h, p) == Count(h, p) {
      FlagTallies(h, p);
    }
    forall p
      ensures Count(h, p) == Count(Times(Pointer, a), p) + Count(Times(Missing, b), p) + Count(Times(MaybeBlock, c), p)
    {
      CountAppend(Times(Pointer, a) + Times(Missing, b), Times(MaybeBlock, c), p);
      CountAppend(Times(Pointer, a), Times(Missing, b), p);
    }
    forall p ensures Count(Times(Pointer, a), p) == (if p == Pointer then a else 0)
                     && Count(Times(Missing, b), p) == (if p == Missing then b else 0)
                     && Count(Times(MaybeBlock, c), p) == (if p == MaybeBlock then c else 0)
    {
      CountTimes(Pointer, a, p);
      CountTimes(Missing, b, p);
      CountTimes(MaybeBlock, c, p);
    }
  }

  /** The score of a function that is not of the closing kind, phase by phase in the generator's order. */
  method ScoreFunction(body: Stmt, pairFns: seq<string>, outers: seq<Outer>, ehcs: seq<EHC>) returns (overall: int)
    ensures overall == 100 - 30 * PointerCalls(body.kids)
                       - 10 * CountMissed(CollectAll(Below(body), pairFns, []), outers)
                       - 8 * CountAllVerified(ehcs)
                       - if CountSlots(ehcs) + |outers| > 8 then 40
                         else if CountSlots(ehcs) + |outers| > 5 then 20 else 0
  {
    hide CollectAll, PointerCalls, CountMissed, CountAllVerified, LastRun;
    var score := new ConfidenceScore();
    VisitFunctionPointers(body, score);
    var smss := OuterSmssRecursiveVisit(body, pairFns, []);
    ScoreMissingStatements(smss, outers, score);
    score.NumberSlots(CountSlots(ehcs) + |outers|);
    ScoreBlocks(ehcs, score);
    assert score.history == ThreePhases(PointerCalls(body.kids), CountMissed(smss, outers), CountAllVerified(ehcs));
    PhasesTally(PointerCalls(body.kids), CountMissed(smss, outers), CountAllVerified(ehcs));
    overall := score.OverallScore();
  }

  // ----- what is counted -----

  /** A call through a pointer of a function whose name speaks of taking something: in front of the first parenthesis of
      the source text stands an arrow and one of the keywords. */
  lemma PointerCallsAre(s: Stmt)
    ensures IsPointerCall()(s) <==>
            (s.kind.Call? || s.kind.IndirectCall?)
            && exists p: nat :: p < |s.source| && s.source[p] == '(' && '(' !in s.source[..p]
                                && Contains(s.source[..p], "->") && MentionsAny(s.source[..p], KEYWORDS)
  {
    hide MentionsAny, KEYWORDS, Contains;
    var found := Find(s.source, "(", 0);
    forall p: nat | p < |s.source| ensures OccursAt(s.source, "(", p) <==> s.source[p] == '(' {
      assert s.source[p..p + 1] == [s.source[p]];
    }
    FindFirst(s.source, 0);
    if p: nat :| p < |s.source| && s.source[p] == '(' && '(' !in s.source[..p] {
      assert OccursAt(s.source, "(", p);
      var q := found.value;
      assert s.source[q..q + 1] == "(" && s.source[q] == '(';
      NotBefore(s.source, p, q);
      NotBefore(s.source, q, p);
    }
  }

  lemma NotBefore(text: string, p: nat, q: nat)
    requires p < |text| && q <= |text| && text[p] == '(' && '(' !in text[..q]
    ensures q <= p
  {
    assert forall i :: 0 <= i < q ==> text[..q][i] == text[i];
  }

  lemma {:induction false} FindFirst(b: string, j: nat)
    requires j <= |b| && '(' !in b[..j]
    ensures var r := Find(b, "(", j); r.Some? ==> r.value < |b| && b[r.value] == '(' && '(' !in b[..r.value]
    decreases |b| - j
  {
    if j < |b| {
      assert b[j..j + 1] == [b[j]];
      if b[j] != '(' {
        assert b[..j + 1] == b[..j] + [b[j]];
        FindFirst(b, j + 1);
      }
    }
  }

  /** The names missed are those of which no outer shares a database index. */
  lemma {:induction false} MissedAre(smss: seq<OuterSms>, outers: seq<Outer>)
    ensures CountMissed(smss, outers)
            == |Filter(smss, (m: OuterSms) => forall o, x :: o in outers && x in m.indexes ==> x !in o.indexes)|
  {
    if smss != [] {
      MissedAre(smss[1..], outers);
    }
  }

  function AllFirsts(ehcs: seq<EHC>): seq<NewStmt> {
    if ehcs == [] then [] else ehcs[0].firsts + AllFirsts(ehcs[1..])
  }

  lemma {:induction false} VerifiedAre(firsts: seq<NewStmt>)
    ensures CountVerified(firsts) == |Filter(firsts, (f: NewStmt) => !f.isOuter && f.kind.Verified?)|
  {
    if firsts != [] {
      VerifiedAre(firsts[1..]);
    }
  }

  /** The statements counted are the new ones of verified blocks that are not marked as outer. */
  lemma {:induction false} AllVerifiedAre(ehcs: seq<EHC>)
    ensures CountAllVerified(ehcs) == |Filter(AllFirsts(ehcs), (f: NewStmt) => !f.isOuter && f.kind.Verified?)|
  {
    hide CountVerified;
    if ehcs != [] {
      var p := (f: NewStmt) => !f.isOuter && f.kind.Verified?;
      VerifiedAre(ehcs[0].firsts);
      AllVerifiedAre(ehcs[1..]);
      FilterAppend(ehcs[0].firsts, AllFirsts(ehcs[1..]), p);
    }
  }
}
