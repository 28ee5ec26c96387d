/** What the generator's passes compute, and their loops over one list, one block or one tree. */
module Passes {
  import opened Basics
  import opened Sequences
  import opened MaskWord
  import opened Tree
  import opened Blocks
  import opened Erasing
  import opened Slots
  import opened Outers
  import opened Jumps
  import opened Runtime
  import opened Similarity
  import opened Ranking
  import opened Unwinding
  import opened Stamps

  // ----- what the passes compute -----

  function FilterBlocks(ehcs: seq<EHC>, p: Stmt -> bool): seq<EHC> {
    seq(|ehcs|, i requires 0 <= i < |ehcs| => ehcs[i].(stmts := Filter(ehcs[i].stmts, p)))
  }

  function ReturnlessBlocks(ehcs: seq<EHC>): seq<EHC> {
    seq(|ehcs|, i requires 0 <= i < |ehcs| => ehcs[i].(stmts := WithoutReturns(ehcs[i].stmts)))
  }

  function NewBlocks(ehcs: seq<EHC>, body: Stmt): seq<EHC> {
    seq(|ehcs|, i requires 0 <= i < |ehcs| => ehcs[i].(firsts := NewIn(ehcs, i, body)))
  }

  predicate AllResolvable(heads: seq<Head>, body: Stmt) {
    forall h :: 0 <= h < |heads| ==> Resolvable(heads[h], body)
  }

  function BlocksOf(heads: seq<Head>, body: Stmt): seq<EHC>
    requires AllResolvable(heads, body)
  {
    seq(|heads|, i requires 0 <= i < |heads| => EHC(heads[i].kind, heads[i].stmt, BlockOf(heads[i], body), []))
  }

  /** A candidate for the statement that an undo statement undoes. */
  function IsCandidate(s: Stmt, startLine: nat, endLine: nat): Stmt -> bool {
    (t: Stmt) =>
      InWindow(t, startLine, endLine)
      && (t.kind.Assign? || t.kind.Update? || t.kind.Call? || t.kind.IndirectCall? || t.kind.Unary?
          || (t.kind.IfStmt? && s.kind.IfStmt?))
  }

  /** The candidates among ss with their scores, in traversal order. */
  function Scored(s: Stmt, ss: seq<Stmt>): seq<Candidate<Stmt>>
    requires s.text != ""
  {
    if ss == [] then []
    else [Candidate(ss[0], PairEvaluation(s.text, ss[0].text))] + Scored(s, ss[1..])
  }

  function Candidates(s: Stmt, forest: seq<Stmt>, startLine: nat, endLine: nat): seq<Candidate<Stmt>>
    requires s.text != ""
  {
    Scored(s, Filter(Flatten(forest), IsCandidate(s, startLine, endLine)))
  }

  // ----- the real pair of a statement -----

  /** The statement, its last child, that one's last child, and so on. */
  function LastChildren(s: Stmt): seq<Stmt> {
    if s.kids == [] then [s] else [s] + LastChildren(s.kids[|s.kids|-1])
  }

  /** Child i of t is a statement that s undoes, and it begins between the lines. */
  predicate PairAt(t: Stmt, i: nat, s: Stmt, startLine: nat, endLine: nat) {
    i < |t.kids| && startLine < t.kids[i].startLine < endLine && IsPair(s, t.kids[i])
  }

  predicate NoPairIn(t: Stmt, n: nat, s: Stmt, startLine: nat, endLine: nat) {
    forall i: nat :: i < n ==> !PairAt(t, i, s, startLine, endLine)
  }

  /** The first pair among the children of the first of the statements that has one. */
  ghost predicate FirstPair(ts: seq<Stmt>, p: Stmt, s: Stmt, startLine: nat, endLine: nat) {
    exists n: nat, i: nat :: n < |ts| && PairAt(ts[n], i, s, startLine, endLine) && ts[n].kids[i] == p
                             && NoPairIn(ts[n], i, s, startLine, endLine)
                             && forall m: nat :: m < n ==> NoPairIn(ts[m], |ts[m].kids|, s, startLine, endLine)
  }

  ghost predicate HasPair(ts: seq<Stmt>, s: Stmt, startLine: nat, endLine: nat) {
    exists n: nat, i: nat :: n < |ts| && PairAt(ts[n], i, s, startLine, endLine)
  }

  lemma HasPairBehind(t: Stmt, rest: seq<Stmt>, s: Stmt, startLine: nat, endLine: nat)
    requires NoPairIn(t, |t.kids|, s, startLine, endLine)
    ensures HasPair([t] + rest, s, startLine, endLine) <==> HasPair(rest, s, startLine, endLine)
  {
    hide IsPair, PairAt;
    var all := [t] + rest;
    if HasPair(all, s, startLine, endLine) {
      var n: nat, i: nat :| n < |all| && PairAt(all[n], i, s, startLine, endLine);
      InKids(all[n], i, s, startLine, endLine);
      assert n > 0 && all[n] == rest[n - 1];
    }
    if HasPair(rest, s, startLine, endLine) {
      var n: nat, i: nat :| n < |rest| && PairAt(rest[n], i, s, startLine, endLine);
      assert all[n + 1] == rest[n];
    }
  }

  lemma InKids(t: Stmt, i: nat, s: Stmt, startLine: nat, endLine: nat)
    ensures PairAt(t, i, s, startLine, endLine) ==> i < |t.kids|
  {
  }

  lemma FirstPairBehind(t: Stmt, rest: seq<Stmt>, p: Stmt, s: Stmt, startLine: nat, endLine: nat)
    requires NoPairIn(t, |t.kids|, s, startLine, endLine) && FirstPair(rest, p, s, startLine, endLine)
    ensures FirstPair([t] + rest, p, s, startLine, endLine)
  {
    hide IsPair, NoPairIn;
    var all := [t] + rest;
    var n: nat, i: nat :| n < |rest| && PairAt(rest[n], i, s, startLine, endLine) && rest[n].kids[i] == p
                          && NoPairIn(rest[n], i, s, startLine, endLine)
                          && forall m: nat :: m < n ==> NoPairIn(rest[m], |rest[m].kids|, s, startLine, endLine);
    assert all[n + 1] == rest[n];
    forall m: nat | m < n + 1 ensures NoPairIn(all[m], |all[m].kids|, s, startLine, endLine) {
      if m > 0 {
        assert all[m] == rest[m - 1];
      }
    }
  }

  /** Where the statement itself has no pair among its children, it is up to its last child. */
  lemma LastChildDecides(t: Stmt, p: Stmt, s: Stmt, startLine: nat, endLine: nat)
    requires NoPairIn(t, |t.kids|, s, startLine, endLine)
    ensures HasPair(LastChildren(t), s, startLine, endLine) <==>
            t.kids != [] && HasPair(LastChildren(t.kids[|t.kids|-1]), s, startLine, endLine)
    ensures t.kids != [] && FirstPair(LastChildren(t.kids[|t.kids|-1]), p, s, startLine, endLine) ==>
              FirstPair(LastChildren(t), p, s, startLine, endLine)
  {
    hide IsPair, FirstPair, NoPairIn;
    var rest := if t.kids == [] then [] else LastChildren(t.kids[|t.kids|-1]);
    assert LastChildren(t) == [t] + rest;
    HasPairBehind(t, rest, s, startLine, endLine);
    if FirstPair(rest, p, s, startLine, endLine) {
      FirstPairBehind(t, rest, p, s, startLine, endLine);
    }
  }

  lemma PairHere(t: Stmt, i: nat, s: Stmt, startLine: nat, endLine: nat)
    requires PairAt(t, i, s, startLine, endLine) && NoPairIn(t, i, s, startLine, endLine)
    ensures HasPair(LastChildren(t), s, startLine, endLine)
    ensures FirstPair(LastChildren(t), t.kids[i], s, startLine, endLine)
  {
    var all := LastChildren(t);
    assert all[0] == t;
  }

  /** What the pair search makes of a new statement: outer exactly when a real pair is found down the last children
      of the body, otherwise paired with the first of the most similar candidates in the window. Without candidates the
      source reads past an empty list. */
  ghost predicate Paired(f: NewStmt, f': NewStmt, body: Stmt, startLine: nat, endLine: nat)
    requires f.stmt.text != ""
  {
    var cs := Candidates(f.stmt, body.kids, startLine, endLine);
    && f' == f.(pair := f'.pair, isOuter := f'.isOuter)
    && (f'.isOuter <==> HasPair(LastChildren(body), f.stmt, startLine, endLine))
    && (f'.isOuter ==> f'.pair.Some? && IsPair(f.stmt, f'.pair.value) && f'.pair.value in Below(body)
                       && FirstPair(LastChildren(body), f'.pair.value, f.stmt, startLine, endLine))
    && (!f'.isOuter && cs != [] ==> f'.pair == Some(cs[BestIndex(cs)].item))
  }

  predicate Printable(firsts: seq<NewStmt>) {
    forall f :: f in firsts ==> f.stmt.text != ""
  }

  ghost predicate BlockPaired(e: EHC, e': EHC, body: Stmt, startLine: nat, endLine: nat)
    requires Printable(e.firsts)
  {
    && e' == e.(firsts := e'.firsts) && |e'.firsts| == |e.firsts|
    && forall i :: 0 <= i < |e.firsts| ==> Paired(e.firsts[i], e'.firsts[i], body, startLine, endLine)
  }

  // ----- helpers without state -----

  lemma {:induction false} FromSplits(ss: seq<Stmt>, target: nat, i: nat)
    requires i <= |ss| && forall j :: 0 <= j < i ==> ss[j].id != target
    ensures From(ss, target) == From(ss[i..], target)
  {
    if i > 0 {
      FromSplits(ss[1..], target, i - 1);
      assert ss[1..][i - 1..] == ss[i..];
    } else {
      assert ss[0..] == ss;
    }
  }

  /** One statement further in the list from the label. */
  lemma CollectStep(ss: seq<Stmt>, i: nat)
    requires i <= |ss|
    ensures Cores(UpToReturn(ss[i..]))
            == if i == |ss| then []
               else [Core(ss[i])] + if ss[i].kind.Return? then [] else Cores(UpToReturn(ss[i + 1..]))
  {
    if i < |ss| {
      assert ss[i..][1..] == ss[i + 1..];
      var rest := UpToReturn(ss[i + 1..]);
      assert ([ss[i]] + rest)[1..] == rest;
      assert [ss[i]][1..] == [];
    }
  }

  /** Walks the siblings of a label: from the label on every statement is collected, labels stripped, until a return. */
  method CollectFromLabel(siblings: seq<Stmt>, target: nat) returns (out: seq<Stmt>)
    requires forall i, j :: 0 <= i < j < |siblings| ==> siblings[i].id != siblings[j].id
    ensures out == Collected(siblings, target)
  {
    hide Cores, UpToReturn;
    out := [];
    var start, over := false, false;
    ghost var at := 0;
    for i := 0 to |siblings|
      invariant !start && !over ==> out == [] && forall j :: 0 <= j < i ==> siblings[j].id != target
      invariant start ==> !over && Collected(siblings, target) == out + Cores(UpToReturn(siblings[i..]))
      invariant over ==> !start && Collected(siblings, target) == out
      invariant start || over ==> at < i && siblings[at].id == target
    {
      var s := siblings[i];
      if s.id == target {
        FromSplits(siblings, target, i);
        start, at := true, i;
      }
      if start {
        CollectStep(siblings, i);
        out := out + [Core(s)];
      }
      if s.kind.Return? && start {
        start, over := false, true;
      }
    }
    CollectStep(siblings, |siblings|);
    if !start && !over {
      FromSplits(siblings, target, |siblings|);
    }
  }

  lemma {:induction false} LastGotoSnoc(ss: seq<Stmt>, s: Stmt)
    ensures LastGoto(ss + [s]) == if s.kind.Goto? then Some(s.kind.target) else LastGoto(ss)
  {
    if ss == [] {
      assert [] + [s] == [s];
      assert [s][1..] == [];
    } else {
      assert (ss + [s])[1..] == ss[1..] + [s];
      LastGotoSnoc(ss[1..], s);
    }
  }

  /** The statements of a goto head beside its gotos, and the target of its last goto. */
  method OwnStatements(kids: seq<Stmt>) returns (own: seq<Stmt>, target: Option<nat>)
    ensures own == Filter(kids, NotGoto()) && target == LastGoto(kids)
  {
    own, target := [], None;
    for i := 0 to |kids|
      invariant own == Filter(kids[..i], NotGoto()) && target == LastGoto(kids[..i])
    {
      assert kids[..i + 1] == kids[..i] + [kids[i]];
      FilterSnoc(kids[..i], kids[i], NotGoto());
      LastGotoSnoc(kids[..i], kids[i]);
      if kids[i].kind.Goto? {
        target := Some(kids[i].kind.target);
      } else {
        own := own + [kids[i]];
      }
    }
    assert kids[..|kids|] == kids;
  }

  lemma ParentsKids(body: Stmt, target: nat)
    requires Unique([body]) && ParentOn(Path([body], target)).Some?
    ensures var kids := ParentOn(Path([body], target)).value.kids;
            forall i, j :: 0 <= i < j < |kids| ==> kids[i].id != kids[j].id
  {
    var path := Path([body], target);
    PathInside([body], target, path[|path|-2]);
    KidsAreUnique([body], path[|path|-2]);
    RootsDiffer(path[|path|-2].kids);
  }

  method CountFunctions(ss: seq<Stmt>, undoFns: seq<string>, total: nat, verified: nat)
    returns (total': nat, verified': nat)
    ensures total' == total + CountCalls(ss) && verified' == verified + CountKnown(ss, undoFns)
  {
    total', verified' := total, verified;
    for i := 0 to |ss|
      invariant total' + CountCalls(ss[i..]) == total + CountCalls(ss)
      invariant verified' + CountKnown(ss[i..], undoFns) == verified + CountKnown(ss, undoFns)
    {
      if ss[i].kind.Call? {
        total' := total' + 1;
        if ss[i].kind.fn in undoFns {
          verified' := verified' + 1;
        }
      }
    }
  }

  /** The comparison of a statement with all statements of the blocks before block n. */
  method AppearsBefore(ehcs: seq<EHC>, n: nat, text: string) returns (seen: bool)
    requires n <= |ehcs|
    ensures seen <==> SeenBefore(ehcs, n, text)
  {
    seen := false;
    for j := 0 to n
      invariant seen <==> exists i :: 0 <= i < j && TextIn(text, ehcs[i].stmts)
    {
      var here := false;
      for k := 0 to |ehcs[j].stmts|
        invariant here <==> exists i :: 0 <= i < k && ehcs[j].stmts[i].text == text
      {
        if ehcs[j].stmts[k].text == text {
          here := true;
        }
      }
      assert here <==> TextIn(text, ehcs[j].stmts);
      seen := seen || here;
    }
  }

  method NewStatements(ehcs: seq<EHC>, n: nat, body: Stmt) returns (firsts: seq<NewStmt>)
    requires n < |ehcs| && Unique([body])
    ensures firsts == NewIn(ehcs, n, body)
  {
    firsts := [];
    if ehcs[n].kind.Denied? {
      return;
    }
    hide Filter, AsNew, Unique, SeenBefore;
    var ss, p := ehcs[n].stmts, IsNew(ehcs, n, body);
    for i := 0 to |ss|
      invariant firsts + AsNew(Filter(ss[i..], p), ehcs[n].kind) == AsNew(Filter(ss, p), ehcs[n].kind)
    {
      NewStep(ss, i, p, ehcs[n].kind);
      var seen := AppearsBefore(ehcs, n, ss[i].text);
      if !seen {
        var parent := FindParentRecursive(ss[i].id, body);
        if !(parent.Some? && ss[i].macro && parent.value.macro) {
          firsts := firsts + [NewStmt(ss[i], None, 0, false, ehcs[n].kind)];
        }
      }
    }
    NewNone(ss[|ss|..], p, ehcs[n].kind);
  }

  lemma NewStep(ss: seq<Stmt>, i: nat, p: Stmt -> bool, kind: EhcType)
    requires i < |ss|
    ensures AsNew(Filter(ss[i..], p), kind) ==
            (if p(ss[i]) then [NewStmt(ss[i], None, 0, false, kind)] else []) + AsNew(Filter(ss[i + 1..], p), kind)
  {
    assert ss[i..] == [ss[i]] + ss[i + 1..];
    FilterCons(ss[i], ss[i + 1..], p);
    var rest := Filter(ss[i + 1..], p);
    assert ([ss[i]] + rest)[1..] == rest;
  }

  lemma NewNone(ss: seq<Stmt>, p: Stmt -> bool, kind: EhcType)
    requires ss == []
    ensures AsNew(Filter(ss, p), kind) == []
  {
  }

  // ----- the search for pairs -----

  /** Looks for the statement that s undoes. What an earlier child returned is overwritten by the later ones, so
      `found` tells exactly whether a pair is met on the way down the last children, and then `pair` is the first one
      there; else `pair` may be a match from elsewhere, or what it was. */
  method RecursivePairVisit(stmt: Stmt, s: Stmt, startLine: nat, endLine: nat, pair0: Option<Stmt>)
      returns (found: bool, pair: Option<Stmt>)
    ensures found <==> HasPair(LastChildren(stmt), s, startLine, endLine)
    ensures found ==> pair.Some? && FirstPair(LastChildren(stmt), pair.value, s, startLine, endLine)
    ensures found ==> pair.value in Below(stmt) && IsPair(s, pair.value) && startLine < pair.value.startLine < endLine
    ensures pair == pair0 || (pair.Some? && IsPair(s, pair.value) && pair.value in Below(stmt)
                              && startLine < pair.value.startLine < endLine)
    decreases stmt
  {
    hide IsPair, HasPair, FirstPair, LastChildren;
    found, pair := false, pair0;
    for i := 0 to |stmt.kids|
      invariant NoPairIn(stmt, i, s, startLine, endLine)
      invariant found <==> i > 0 && HasPair(LastChildren(stmt.kids[i - 1]), s, startLine, endLine)
      invariant found ==> pair.Some? && FirstPair(LastChildren(stmt.kids[i - 1]), pair.value, s, startLine, endLine)
      invariant found ==> pair.value in Below(stmt) && IsPair(s, pair.value)
      invariant found ==> startLine < pair.value.startLine < endLine
      invariant pair == pair0 || (pair.Some? && IsPair(s, pair.value) && pair.value in Below(stmt)
                                  && startLine < pair.value.startLine < endLine)
    {
      var kid := stmt.kids[i];
      found := false;
      RootInside(stmt.kids, i);
      if InWindow(kid, startLine, endLine) && IsPair(s, kid) {
        PairHere(stmt, i, s, startLine, endLine);
        return true, Some(kid);
      }
      ghost var before := pair;
      found, pair := RecursivePairVisit(kid, s, startLine, endLine, pair);
      if pair != before || found {
        KidsInside(stmt.kids, kid, pair.value);
      }
    }
    if found {
      LastChildDecides(stmt, pair.value, s, startLine, endLine);
    } else {
      LastChildDecides(stmt, stmt, s, startLine, endLine);
    }
  }

  lemma {:induction false} ScoredAppend(s: Stmt, a: seq<Stmt>, b: seq<Stmt>)
    requires s.text != ""
    ensures Scored(s, a + b) == Scored(s, a) + Scored(s, b)
  {
    if a == [] {
      assert a + b == b;
    } else {
      assert (a + b)[1..] == a[1..] + b;
      ScoredAppend(s, a[1..], b);
    }
  }

  lemma CandidatesSteps(s: Stmt, forest: seq<Stmt>, startLine: nat, endLine: nat)
    requires s.text != "" && forest != []
    ensures Candidates(s, forest, startLine, endLine) ==
            (if IsCandidate(s, startLine, endLine)(forest[0])
             then [Candidate(forest[0], PairEvaluation(s.text, forest[0].text))] else [])
            + Candidates(s, forest[0].kids, startLine, endLine) + Candidates(s, forest[1..], startLine, endLine)
  {
    hide PairEvaluation;
    var p := IsCandidate(s, startLine, endLine);
    var inside, after := Filter(Flatten(forest[0].kids), p), Filter(Flatten(forest[1..]), p);
    FilterAppend([forest[0]] + Flatten(forest[0].kids), Flatten(forest[1..]), p);
    FilterCons(forest[0], Flatten(forest[0].kids), p);
    var here := if p(forest[0]) then [forest[0]] else [];
    assert Filter([forest[0]] + Flatten(forest[0].kids), p) == here + inside;
    ScoredAppend(s, here + inside, after);
    ScoredAppend(s, here, inside);
    assert Scored(s, here) ==
           if p(forest[0]) then [Candidate(forest[0], PairEvaluation(s.text, forest[0].text))] else [] by {
      assert [forest[0]][1..] == [];
    }
  }

  lemma NoCandidates(s: Stmt, forest: seq<Stmt>, startLine: nat, endLine: nat)
    requires s.text != "" && forest == []
    ensures Candidates(s, forest, startLine, endLine) == []
  {
  }

  /** Collects the candidates with their scores in traversal order. */
  method RecursiveProbablePairVisit(stmt: Stmt, s: Stmt, startLine: nat, endLine: nat)
    returns (cs: seq<Candidate<Stmt>>)
    requires s.text != ""
    ensures cs == Candidates(s, stmt.kids, startLine, endLine)
    decreases stmt
  {
    hide PairEvaluation, Candidates, InWindow;
    cs := [];
    for i := 0 to |stmt.kids|
      invariant cs + Candidates(s, stmt.kids[i..], startLine, endLine) == Candidates(s, stmt.kids, startLine, endLine)
    {
      var kid := stmt.kids[i];
      CandidatesSteps(s, stmt.kids[i..], startLine, endLine);
      assert stmt.kids[i..][1..] == stmt.kids[i + 1..];
      if IsCandidate(s, startLine, endLine)(kid) {
        var score := EvaluateTexts(s.text, kid.text);
        cs := cs + [Candidate(kid, score)];
      }
      var inside := RecursiveProbablePairVisit(kid, s, startLine, endLine);
      cs := cs + inside;
    }
    NoCandidates(s, stmt.kids[|stmt.kids|..], startLine, endLine);
  }

  method PairOne(f: NewStmt, body: Stmt, startLine: nat, endLine: nat) returns (f': NewStmt)
    requires f.stmt.text != ""
    ensures Paired(f, f', body, startLine, endLine)
  {
    hide PairEvaluation;
    var found, pair := RecursivePairVisit(body, f.stmt, startLine, endLine, f.pair);
    if found {
      return f.(pair := pair, isOuter := true);
    }
    var cs := RecursiveProbablePairVisit(body, f.stmt, startLine, endLine);
    var ranker := new Ranker(cs);
    ranker.SortPairs();
    SortedIsStable(cs);
    if cs != [] {
      var best := ranker.PickTheMostProbable();
      pair := Some(best);
    }
    f' := f.(pair := pair, isOuter := false);
  }

  // ----- merging, marking, numbering -----

  lemma {:induction false} StmtsSnoc(outers: seq<Outer>, o: Outer)
    ensures StmtsOf(outers + [o]) == StmtsOf(outers) + [o.stmt]
  {
    if outers == [] {
      assert [] + [o] == [o];
      assert [o][1..] == [];
    } else {
      assert (outers + [o])[1..] == outers[1..] + [o];
      StmtsSnoc(outers[1..], o);
    }
  }

  lemma {:induction false} MergeFront(before: seq<Outer>, outers: seq<Outer>)
    requires outers != []
    ensures var first, rest, source := outers[0], outers[1..], outers[0].stmt.source;
            before + Merge(outers) ==
            before + [first.(duplicates := first.duplicates + StmtsOf(Filter(rest, SameSource(source))))]
            + Merge(Filter(rest, OtherSource(source)))
  {
  }

  lemma {:induction false} MarkAgain(firsts: seq<NewStmt>, done: seq<Outer>, o: Outer)
    ensures MarkFirsts(MarkFirsts(firsts, done), [o]) == MarkFirsts(firsts, done + [o])
  {
    if firsts != [] {
      MarkAgain(firsts[1..], done, o);
      var f := firsts[0].(isOuter := firsts[0].isOuter || HasSource(done, firsts[0].stmt.source));
      assert ([f] + MarkFirsts(firsts[1..], done))[1..] == MarkFirsts(firsts[1..], done);
      assert HasSource(done + [o], f.stmt.source) <==> HasSource(done, f.stmt.source) || HasSource([o], f.stmt.source);
    }
  }

  lemma {:induction false} MarkBlocksAgain(ehcs: seq<EHC>, done: seq<Outer>, o: Outer)
    ensures MarkBlocks(MarkBlocks(ehcs, done), [o]) == MarkBlocks(ehcs, done + [o])
  {
    if ehcs != [] {
      MarkBlocksAgain(ehcs[1..], done, o);
      MarkAgain(ehcs[0].firsts, done, o);
      var e := ehcs[0].(firsts := MarkFirsts(ehcs[0].firsts, done));
      assert ([e] + MarkBlocks(ehcs[1..], done))[1..] == MarkBlocks(ehcs[1..], done);
    }
  }

  lemma {:induction false} MarkNothing(ehcs: seq<EHC>)
    ensures MarkBlocks(ehcs, []) == ehcs
  {
    if ehcs != [] {
      MarkNothing(ehcs[1..]);
      MarkNoFirst(ehcs[0].firsts);
    }
  }

  lemma {:induction false} MarkNoFirst(firsts: seq<NewStmt>)
    ensures MarkFirsts(firsts, []) == firsts
  {
    if firsts != [] {
      MarkNoFirst(firsts[1..]);
    }
  }

  lemma MarkBlocksStep(ehcs: seq<EHC>, b: nat, outers: seq<Outer>)
    requires b < |ehcs|
    ensures MarkBlocks(ehcs[b..], outers)
            == [ehcs[b].(firsts := MarkFirsts(ehcs[b].firsts, outers))] + MarkBlocks(ehcs[b + 1..], outers)
  {
    hide MarkFirsts;
    assert ehcs[b..][1..] == ehcs[b + 1..];
  }

  lemma MarkNoBlocks(ehcs: seq<EHC>, outers: seq<Outer>)
    requires ehcs == []
    ensures MarkBlocks(ehcs, outers) == []
  {
  }

  method MarkSame(firsts: seq<NewStmt>, o: Outer) returns (r: seq<NewStmt>)
    ensures r == MarkFirsts(firsts, [o])
  {
    r := [];
    for i := 0 to |firsts|
      invariant r + MarkFirsts(firsts[i..], [o]) == MarkFirsts(firsts, [o])
    {
      assert firsts[i..][1..] == firsts[i + 1..];
      assert HasSource([o], firsts[i].stmt.source) <==> o.stmt.source == firsts[i].stmt.source by {
        assert o in [o];
      }
      r := r + [if o.stmt.source == firsts[i].stmt.source then firsts[i].(isOuter := true) else firsts[i]];
    }
  }

  lemma NextSlotId(k: nat)
    ensures SlotId(k + 1) == SlotId(k) << 1
  {
  }

  /** Gives slots to the statements of one block; id is the next free one. */
  method NumberOne(firsts: seq<NewStmt>, id0: bv64, ghost k: nat) returns (r: seq<NewStmt>, id: bv64)
    requires id0 == SlotId(k)
    ensures r == NumberFirsts(firsts, k) && id == SlotId(k + CountInner(firsts))
  {
    hide SlotId, NumberFirsts, CountInner;
    r, id := [], id0;
    ghost var n: nat := k;
    for i := 0 to |firsts|
      invariant r + NumberFirsts(firsts[i..], n) == NumberFirsts(firsts, k)
      invariant id == SlotId(n) && n + CountInner(firsts[i..]) == k + CountInner(firsts)
    {
      NumberStep(firsts, i, n);
      if firsts[i].isOuter {
        r := r + [firsts[i]];
      } else {
        r := r + [firsts[i].(id := id)];
        NextSlotId(n);
        id := id << 1;
        n := n + 1;
      }
    }
    NumberNone(firsts[|firsts|..], n);
  }

  lemma NumberStep(firsts: seq<NewStmt>, i: nat, k: nat)
    requires i < |firsts|
    ensures var rest := firsts[i + 1..];
            if firsts[i].isOuter
            then NumberFirsts(firsts[i..], k) == [firsts[i]] + NumberFirsts(rest, k)
                 && CountInner(firsts[i..]) == CountInner(rest)
            else NumberFirsts(firsts[i..], k) == [firsts[i].(id := SlotId(k))] + NumberFirsts(rest, k + 1)
                 && CountInner(firsts[i..]) == 1 + CountInner(rest)
  {
    hide SlotId;
    assert firsts[i..][1..] == firsts[i + 1..];
  }

  lemma NumberNone(firsts: seq<NewStmt>, k: nat)
    requires firsts == []
    ensures NumberFirsts(firsts, k) == [] && CountInner(firsts) == 0
  {
  }

  // ----- inserting text -----

  /** The locations behind the opening braces of the compound statements of a forest. */
  function Opens(forest: seq<Stmt>): seq<nat> {
    if forest == [] then []
    else
      (match forest[0].kind case Compound(open) => [open] case _ => [])
      + Opens(forest[0].kids) + Opens(forest[1..])
  }

  function Ends(ss: seq<Stmt>): seq<nat> {
    if ss == [] then [] else [ss[0].at] + Ends(ss[1..])
  }

  lemma {:induction false} LocsAppend(a: seq<Stmt>, b: seq<Stmt>, body: Stmt)
    ensures Locs(a + b, body) == Locs(a, body) + Locs(b, body)
  {
    if a == [] {
      assert a + b == b;
    } else {
      assert (a + b)[1..] == a[1..] + b;
      LocsAppend(a[1..], b, body);
    }
  }

  method InsertGotosBlocks(rw: Rewriter, stmt: Stmt) returns (n: nat)
    modifies rw
    ensures n == |Opens(stmt.kids)|
    ensures Inserted(old(rw.edits), rw.edits, Opens(stmt.kids), Hgoto)
    decreases stmt
  {
    hide Inserted, Opens;
    n := 0;
    ghost var done: seq<nat> := [];
    InsertedNothing(rw.edits, Hgoto);
    for i := 0 to |stmt.kids|
      invariant done + Opens(stmt.kids[i..]) == Opens(stmt.kids) && n == |done|
      invariant Inserted(old(rw.edits), rw.edits, done, Hgoto)
    {
      var kid := stmt.kids[i];
      OpensStep(stmt.kids, i);
      if kid.kind.Compound? {
        ghost var before := rw.edits;
        rw.InsertText(kid.kind.open, Hgoto);
        InsertedMore(old(rw.edits), before, rw.edits, done, [kid.kind.open], Hgoto);
        n, done := n + 1, done + [kid.kind.open];
      }
      ghost var before := rw.edits;
      var inside := InsertGotosBlocks(rw, kid);
      InsertedMore(old(rw.edits), before, rw.edits, done, Opens(kid.kids), Hgoto);
      n, done := n + inside, done + Opens(kid.kids);
    }
    OpensNone(stmt.kids[|stmt.kids|..]);
    assert done == Opens(stmt.kids);
  }

  lemma OpensStep(kids: seq<Stmt>, i: nat)
    requires i < |kids|
    ensures Opens(kids[i..]) ==
            (if kids[i].kind.Compound? then [kids[i].kind.open] else []) + Opens(kids[i].kids) + Opens(kids[i + 1..])
  {
    assert kids[i..][1..] == kids[i + 1..];
  }

  lemma OpensNone(forest: seq<Stmt>)
    requires forest == []
    ensures Opens(forest) == []
  {
  }

  /** Collects the places for jumps and the statements that forbid them, in traversal order. A statement that ends
      outside the main file is passed over with everything inside it. */
  method GotosVisit(stmt: Stmt, body: Stmt) returns (places: seq<Stmt>, forbidden: seq<Stmt>)
    requires Unique([body])
    ensures places == Filter(InMain(stmt.kids), IsPlace(body))
    ensures forbidden == Filter(InMain(stmt.kids), Forbids(body))
    decreases stmt
  {
    hide Filter, InMain, Path, Unique, IsPlace, Forbids;
    places, forbidden := [], [];
    for i := 0 to |stmt.kids|
      invariant places + Filter(InMain(stmt.kids[i..]), IsPlace(body)) == Filter(InMain(stmt.kids), IsPlace(body))
      invariant forbidden + Filter(InMain(stmt.kids[i..]), Forbids(body)) == Filter(InMain(stmt.kids), Forbids(body))
    {
      var kid := stmt.kids[i];
      InMainStep(stmt.kids, i, IsPlace(body));
      InMainStep(stmt.kids, i, Forbids(body));
      if kid.foreign {
        continue;
      }
      var parent := FindParentRecursive(kid.id, body);
      JumpTests(kid, body, parent);
      var p, f := GotosVisit(kid, body);
      if !kid.macro && (LeavesOrDeclares(kid) || InParentCondition(kid, parent)) {
        forbidden := forbidden + [kid];
      } else if kid.semi {
        places := places + [kid];
      }
      places, forbidden := places + p, forbidden + f;
    }
    InMainNone(stmt.kids[|stmt.kids|..], IsPlace(body));
    InMainNone(stmt.kids[|stmt.kids|..], Forbids(body));
  }

  lemma JumpTests(s: Stmt, body: Stmt, parent: Option<Stmt>)
    requires parent == ParentOn(Path([body], s.id))
    ensures Forbids(body)(s) <==> !s.macro && (LeavesOrDeclares(s) || InParentCondition(s, parent))
    ensures IsPlace(body)(s) <==> !Forbids(body)(s) && s.semi
  {
  }

  lemma InMainNone(forest: seq<Stmt>, p: Stmt -> bool)
    requires forest == []
    ensures Filter(InMain(forest), p) == []
  {
  }

  lemma InMainStep(kids: seq<Stmt>, i: nat, p: Stmt -> bool)
    requires i < |kids|
    ensures Filter(InMain(kids[i..]), p) ==
            (if kids[i].foreign then []
             else (if p(kids[i]) then [kids[i]] else []) + Filter(InMain(kids[i].kids), p))
            + Filter(InMain(kids[i + 1..]), p)
  {
    assert kids[i..][1..] == kids[i + 1..];
    var inside, rest := InMain(kids[i].kids), InMain(kids[i + 1..]);
    assert InMain(kids[i..]) == (if kids[i].foreign then [] else [kids[i]] + inside) + rest;
    hide InMain, Filter;
    if kids[i].foreign {
      assert [] + rest == rest && [] + Filter(rest, p) == Filter(rest, p);
    } else {
      FilterAppend([kids[i]] + inside, rest, p);
      FilterCons(kids[i], inside, p);
      assert [] + Filter(inside, p) == Filter(inside, p);
    }
  }

  function JumpsIn(body: Stmt): seq<Stmt> {
    Survivors(Filter(InMain(body.kids), IsPlace(body)), Filter(InMain(body.kids), Forbids(body)), 0)
  }

  method InsertGotos(rw: Rewriter, body: Stmt) returns (n: nat)
    requires Unique([body])
    modifies rw
    ensures n == |JumpsIn(body)|
    ensures Inserted(old(rw.edits), rw.edits, Ends(JumpsIn(body)), Hgoto)
  {
    hide Inserted, IsPlace, Forbids, Survivors, Filter, Unique;
    var places, forbidden := GotosVisit(body, body);
    var kept := KeepJumps(places, forbidden);
    n := 0;
    ghost var done: seq<nat> := [];
    InsertedNothing(rw.edits, Hgoto);
    for i := 0 to |kept|
      invariant n == i && done + Ends(kept[i..]) == Ends(kept)
      invariant Inserted(old(rw.edits), rw.edits, done, Hgoto)
    {
      assert kept[i..][1..] == kept[i + 1..];
      ghost var before := rw.edits;
      rw.InsertText(kept[i].at, Hgoto);
      InsertedMore(old(rw.edits), before, rw.edits, done, [kept[i].at], Hgoto);
      n, done := n + 1, done + [kept[i].at];
    }
    assert done == Ends(kept);
  }

  method FindProperLoc(s: Stmt, body: Stmt) returns (loc: Option<nat>)
    requires Unique([body])
    ensures loc == StampLoc(s, body)
  {
    var parent := FindIfStmtGrandparentRecursive(s.id, body);
    if InParentCondition(s, parent) {
      match BodyOf(parent.value) {
        case Some(b) => loc := if b.kind.Compound? then Some(b.kind.open) else None;
        case None => loc := None;
      }
    } else if IsConditional(s) {
      loc := None;
    } else {
      loc := Some(s.at);
    }
  }

  method StampAll(rw: Rewriter, ss: seq<Stmt>, body: Stmt, item: Item)
    requires Unique([body])
    modifies rw
    ensures Inserted(old(rw.edits), rw.edits, Locs(ss, body), item)
  {
    hide Inserted, Unique, StampLoc;
    ghost var done: seq<nat> := [];
    InsertedNothing(rw.edits, item);
    for i := 0 to |ss|
      invariant done + Locs(ss[i..], body) == Locs(ss, body)
      invariant Inserted(old(rw.edits), rw.edits, done, item)
    {
      assert ss[i..][1..] == ss[i + 1..];
      var loc := FindProperLoc(ss[i], body);
      if loc.Some? {
        ghost var before := rw.edits;
        rw.InsertText(loc.value, item);
        InsertedMore(old(rw.edits), before, rw.edits, done, [loc.value], item);
        done := done + [loc.value];
      }
    }
    assert done == Locs(ss, body);
  }

  lemma JudgeStep(ehcs: seq<EHC>, b: nat, undoFns: seq<string>, total: nat, verified: nat)
    requires b < |ehcs|
    ensures var e := ehcs[b];
            Judge(ehcs[b..], undoFns, total, verified) ==
            if !IsDoubtful(e) then [e] + Judge(ehcs[b + 1..], undoFns, total, verified)
            else
              var t, v := total + CountCalls(e.stmts), verified + CountKnown(e.stmts, undoFns);
              [e.(kind := Verdict(e.stmts, t, v))] + Judge(ehcs[b + 1..], undoFns, t, v)
  {
    assert ehcs[b..][1..] == ehcs[b + 1..];
  }

  method FindLabel(ss: seq<Stmt>) returns (found: bool)
    ensures found <==> HasLabel(ss)
  {
    found := false;
    for i := 0 to |ss|
      invariant found <==> exists j :: 0 <= j < i && ss[j].kind.Labelled?
    {
      if ss[i].kind.Labelled? {
        found := true;
      }
    }
  }

  /** The verdict on one block, with the counters running on. */
  method JudgeBlock(e: EHC, undoFns: seq<string>, total: nat, verified: nat)
      returns (e': EHC, total': nat, verified': nat)
    ensures if !IsDoubtful(e) then e' == e && total' == total && verified' == verified
            else
              && total' == total + CountCalls(e.stmts) && verified' == verified + CountKnown(e.stmts, undoFns)
              && e' == e.(kind := Verdict(e.stmts, total', verified'))
  {
    hide CountCalls, CountKnown, HasLabel;
    e', total', verified' := e, total, verified;
    if IsDoubtful(e) {
      total', verified' := CountFunctions(e.stmts, undoFns, total, verified);
      var kind := if verified' >= 1 || total' == 0 then Verified else EhcType.Denied;
      var labelled := FindLabel(e.stmts);
      if labelled {
        kind := EhcType.Denied;
      }
      e' := e.(kind := kind);
    }
  }

  /** What is new in block n depends on the blocks' statements and kinds only. */
  lemma SameBlocksSameNews(ehcs: seq<EHC>, ehcs': seq<EHC>, n: nat, body: Stmt)
    requires |ehcs| == |ehcs'| && n < |ehcs|
    requires forall i :: 0 <= i < |ehcs| ==> ehcs'[i].stmts == ehcs[i].stmts && ehcs'[i].kind == ehcs[i].kind
    ensures NewIn(ehcs, n, body) == NewIn(ehcs', n, body)
  {
    hide InMacro;
    SameFilter(ehcs[n].stmts, ehcs, ehcs', n, body);
  }

  lemma {:induction false} SameFilter(ss: seq<Stmt>, ehcs: seq<EHC>, ehcs': seq<EHC>, n: nat, body: Stmt)
    requires |ehcs| == |ehcs'| && n < |ehcs|
    requires forall i :: 0 <= i < |ehcs| ==> ehcs'[i].stmts == ehcs[i].stmts
    ensures Filter(ss, IsNew(ehcs, n, body)) == Filter(ss, IsNew(ehcs', n, body))
  {
    hide InMacro;
    if ss != [] {
      SameFilter(ss[1..], ehcs, ehcs', n, body);
    }
  }

  method PairBlock(firsts: seq<NewStmt>, body: Stmt, startLine: nat, endLine: nat) returns (r: seq<NewStmt>)
    requires Printable(firsts)
    ensures |r| == |firsts|
    ensures forall i :: 0 <= i < |firsts| ==> Paired(firsts[i], r[i], body, startLine, endLine)
  {
    hide Paired;
    r := [];
    for i := 0 to |firsts|
      invariant |r| == i
      invariant forall j :: 0 <= j < i ==> Paired(firsts[j], r[j], body, startLine, endLine)
    {
      var f := PairOne(firsts[i], body, startLine, endLine);
      r := r + [f];
    }
  }

  predicate IsOuterHere(s: Stmt, undoFns: seq<string>, parent: Option<Stmt>) {
    && s.kind.Call? && !(parent.Some? && s.macro && parent.value.macro)
    && (IsRelease(s.kind.fn) || (s.kind.fn in undoFns && IsUndoCall(s.kind.fn, s.kind.params)))
  }

  lemma OuterTest(s: Stmt, undoFns: seq<string>, body: Stmt, parent: Option<Stmt>)
    requires parent == ParentOn(Path([body], s.id))
    ensures IsOuterHere(s, undoFns, parent) <==> IsOuterUndo(undoFns, body)(s)
  {
  }

  lemma NoOutersIn(forest: seq<Stmt>, undoFns: seq<string>, body: Stmt)
    requires forest == []
    ensures OutersIn(forest, undoFns, body) == []
  {
  }

  lemma NothingAbsorbed(rest: seq<Outer>, source: string)
    ensures Filter(rest[..0], SameSource(source)) == [] && Filter(rest[..0], OtherSource(source)) == []
    ensures StmtsOf([]) == []
  {
  }

  /** The statements that an outer undoes: those that a lock release matches, and for a call that the database knows
      those of a choice that is not part of this model. */
  function PairsFor(o: Outer, body: Stmt, choose: Outer -> seq<Stmt>): seq<Stmt> {
    if IsReleaseCall(o.stmt) then Matches(body.kids, o.stmt) else choose(o)
  }

  function WithPairs(outers: seq<Outer>, body: Stmt, choose: Outer -> seq<Stmt>): seq<Outer> {
    seq(|outers|, i requires 0 <= i < |outers| =>
      outers[i].(pairs := outers[i].pairs + PairsFor(outers[i], body, choose)))
  }

  lemma PairsKeepStmts(outers: seq<Outer>, body: Stmt, choose: Outer -> seq<Stmt>)
    ensures StmtsOf(WithPairs(outers, body, choose)) == StmtsOf(outers)
    ensures |WithPairs(outers, body, choose)| == |outers|
    ensures forall i :: 0 <= i < |outers| ==> WithPairs(outers, body, choose)[i].duplicates == outers[i].duplicates
    ensures forall i :: 0 <= i < |outers| ==> WithPairs(outers, body, choose)[i].indexes == outers[i].indexes
  {
    StmtsAt(outers);
    StmtsAt(WithPairs(outers, body, choose));
  }

  /** A lock release undoes exactly the topmost statements that take its lock. */
  ghost predicate ReleasesPaired(outers: seq<Outer>, body: Stmt) {
    forall o :: o in outers && o.stmt.kind.Call?
                && o.stmt.kind.fn in ["mutex_unlock", "spin_unlock", "spin_unlock_irqrestore"] ==>
      o.pairs == Filter(Below(body), Topmost(body.kids, o.stmt))
  }

  lemma {:induction false} NothingPairedYet(outers: seq<Outer>, undoFns: seq<string>, body: Stmt)
    ensures forall o :: o in Merge(OutersIn(body.kids, undoFns, body)) ==> o.pairs == []
  {
    var collected := OutersIn(body.kids, undoFns, body);
    NoPairsCollected(Filter(Below(body), IsOuterUndo(undoFns, body)), undoFns);
    MergeAddsNoPairs(collected);
  }

  lemma {:induction false} NoPairsCollected(ss: seq<Stmt>, undoFns: seq<string>)
    ensures forall o :: o in AsOuters(ss, undoFns) ==> o.pairs == []
  {
    if ss != [] {
      NoPairsCollected(ss[1..], undoFns);
      assert AsOuters(ss, undoFns) == [AsOuter(ss[0], undoFns)] + AsOuters(ss[1..], undoFns);
    }
  }

  lemma {:induction false} MergeAddsNoPairs(outers: seq<Outer>)
    requires forall o :: o in outers ==> o.pairs == []
    ensures forall o :: o in Merge(outers) ==> o.pairs == []
    decreases |outers|
  {
    if outers != [] {
      var first, rest := outers[0], outers[1..];
      var others := Filter(rest, OtherSource(first.stmt.source));
      FilterLength(rest, OtherSource(first.stmt.source));
      FilterKeeps(rest, OtherSource(first.stmt.source));
      assert outers == [first] + rest;
      MergeAddsNoPairs(others);
      assert Merge(outers) == [Merge(outers)[0]] + Merge(others) && Merge(outers)[0].pairs == first.pairs;
    }
  }

  lemma PairsAreReleased(outers: seq<Outer>, body: Stmt, choose: Outer -> seq<Stmt>)
    requires Unique([body]) && forall o :: o in outers ==> o.pairs == []
    ensures ReleasesPaired(WithPairs(outers, body, choose), body)
  {
    hide Unique, Topmost, Matches;
    var chosen := WithPairs(outers, body, choose);
    KidsUnique(body);
    forall o | o in chosen && IsReleaseCall(o.stmt)
      ensures o.pairs == Filter(Below(body), Topmost(body.kids, o.stmt))
    {
      var i :| 0 <= i < |outers| && chosen[i] == o;
      assert outers[i] in outers;
      MatchesAreTopmost(body.kids, o.stmt);
      assert [] + Matches(body.kids, o.stmt) == Matches(body.kids, o.stmt);
    }
  }

  lemma KidsUnique(body: Stmt)
    requires Unique([body])
    ensures Unique(body.kids)
  {
  }

  lemma {:induction false} NumberingKeepsPairs(outers: seq<Outer>, k: nat, body: Stmt)
    requires ReleasesPaired(outers, body)
    ensures ReleasesPaired(NumberOuters(outers, k), body)
  {
    hide SlotId, IsReleaseCall, Topmost, Below;
    if outers != [] {
      NumberingKeepsPairs(outers[1..], k + 1, body);
      assert outers[0] in outers;
      assert NumberOuters(outers, k) == [outers[0].(id := SlotId(k))] + NumberOuters(outers[1..], k + 1);
    }
  }

  lemma NumberBlocksStep(ehcs: seq<EHC>, b: nat, k: nat)
    requires b < |ehcs|
    ensures var c := CountInner(ehcs[b].firsts);
            && NumberBlocks(ehcs[b..], k)
               == [ehcs[b].(firsts := NumberFirsts(ehcs[b].firsts, k))] + NumberBlocks(ehcs[b + 1..], k + c)
            && CountSlots(ehcs[b..]) == c + CountSlots(ehcs[b + 1..])
  {
    hide NumberFirsts, CountInner;
    assert ehcs[b..][1..] == ehcs[b + 1..];
  }

  lemma NumberNoMoreBlocks(ehcs: seq<EHC>, k: nat)
    requires ehcs == []
    ensures NumberBlocks(ehcs, k) == [] && CountSlots(ehcs) == 0
  {
  }

  lemma FirstSlotId()
    ensures SlotId(0) == 1
  {
  }

  /** Moves the outers of the rest that print like the first one into its duplicates. */
  method Absorb(first: Outer, rest0: seq<Outer>) returns (head: Outer, rest: seq<Outer>)
    ensures var source := first.stmt.source;
            && head == first.(duplicates := first.duplicates + StmtsOf(Filter(rest0, SameSource(source))))
            && rest == Filter(rest0, OtherSource(source))
  {
    hide Filter, StmtsOf;
    var source := first.stmt.source;
    head, rest := first, rest0;
    var j := 0;
    ghost var n := 0;
    NothingAbsorbed(rest0, source);
    assert first.duplicates + [] == first.duplicates && [] + rest0[0..] == rest0;
    while j < |rest|
      invariant n <= |rest0| && j == |Filter(rest0[..n], OtherSource(source))|
      invariant rest == Filter(rest0[..n], OtherSource(source)) + rest0[n..]
      invariant head == first.(duplicates := first.duplicates + StmtsOf(Filter(rest0[..n], SameSource(source))))
      decreases |rest0| - n
    {
      WalkStep(rest0, n, OtherSource(source));
      WalkStep(rest0, n, SameSource(source));
      if rest[j].stmt.source == source {
        StmtsSnoc(Filter(rest0[..n], SameSource(source)), rest0[n]);
        Longer(first.duplicates, StmtsOf(Filter(rest0[..n], SameSource(source))), rest0[n].stmt);
        CutOut(Filter(rest0[..n], OtherSource(source)), rest0[n], rest0[n + 1..]);
        head := head.(duplicates := head.duplicates + [rest[j].stmt]);
        rest := rest[..j] + rest[j + 1..];
      } else {
        j := j + 1;
      }
      n := n + 1;
    }
    assert rest0[..n] == rest0 && rest0[n..] == [];
  }

  lemma Longer<T>(a: seq<T>, b: seq<T>, x: T)
    ensures a + b + [x] == a + (b + [x])
  {
  }

  lemma CutOut<T>(a: seq<T>, x: T, b: seq<T>)
    ensures var s := a + [x] + b; s[|a|] == x && s[..|a|] + s[|a| + 1..] == a + b
  {
    var s := a + [x] + b;
    assert s[..|a|] == a && s[|a| + 1..] == b;
  }

  lemma NumberOutersStep(outers: seq<Outer>, i: nat, k: nat)
    requires i < |outers|
    ensures NumberOuters(outers[i..], k) == [outers[i].(id := SlotId(k))] + NumberOuters(outers[i + 1..], k + 1)
  {
    hide SlotId;
    assert outers[i..][1..] == outers[i + 1..];
  }

  lemma NumberNoOuters(outers: seq<Outer>, k: nat)
    requires outers == []
    ensures NumberOuters(outers, k) == []
  {
  }

  // ----- stamps and the cleanup block -----

  function HitsAt(locs: seq<nat>, item: Item): nat -> seq<Item> {
    (at: nat) => Hits(locs, at, item)
  }

  function FirstsAt(firsts: seq<NewStmt>, body: Stmt): nat -> seq<Item> {
    (at: nat) => FirstStamps(firsts, body, at)
  }

  function InnersAt(ehcs: seq<EHC>, body: Stmt): nat -> seq<Item> {
    (at: nat) => InnerStamps(ehcs, body, at)
  }

  function OutersAt(outers: seq<Outer>, body: Stmt): nat -> seq<Item> {
    (at: nat) => OuterStamps(outers, body, at)
  }

  lemma InsertedGrows(before: map<nat, seq<Item>>, after: map<nat, seq<Item>>, locs: seq<nat>, item: Item)
    requires Inserted(before, after, locs, item)
    ensures Grown(before, after, HitsAt(locs, item))
  {
  }

  lemma GrownNothing(edits: map<nat, seq<Item>>, more: nat -> seq<Item>)
    requires forall at: nat :: more(at) == []
    ensures Grown(edits, edits, more)
  {
  }

  lemma {:induction false} FirstStampsSnoc(firsts: seq<NewStmt>, f: NewStmt, body: Stmt, at: nat)
    ensures FirstStamps(firsts + [f], body, at) ==
            FirstStamps(firsts, body, at) + if f.isOuter then [] else Hits(LocsOf(f.pair, body), at, SetStamp(f.id))
  {
    hide Hits, LocsOf;
    if firsts == [] {
      assert [] + [f] == [f] && [f][1..] == [];
    } else {
      assert (firsts + [f])[1..] == firsts[1..] + [f];
      FirstStampsSnoc(firsts[1..], f, body, at);
    }
  }

  lemma {:induction false} InnerStampsSnoc(ehcs: seq<EHC>, e: EHC, body: Stmt, at: nat)
    ensures InnerStamps(ehcs + [e], body, at) == InnerStamps(ehcs, body, at) + FirstStamps(e.firsts, body, at)
  {
    hide FirstStamps;
    if ehcs == [] {
      assert [] + [e] == [e] && [e][1..] == [];
    } else {
      assert (ehcs + [e])[1..] == ehcs[1..] + [e];
      InnerStampsSnoc(ehcs[1..], e, body, at);
    }
  }

  lemma {:induction false} OuterStampsSnoc(outers: seq<Outer>, o: Outer, body: Stmt, at: nat)
    ensures OuterStamps(outers + [o], body, at) ==
            OuterStamps(outers, body, at)
            + (Hits(UndoLocs(o, body), at, UnsetStamp(o.id)) + Hits(Locs(o.pairs, body), at, SetStamp(o.id)))
  {
    hide Hits, Locs;
    if outers == [] {
      assert [] + [o] == [o] && [o][1..] == [];
    } else {
      assert (outers + [o])[1..] == outers[1..] + [o];
      OuterStampsSnoc(outers[1..], o, body, at);
    }
  }

  method StampFirsts(rw: Rewriter, firsts: seq<NewStmt>, body: Stmt)
    requires Unique([body])
    modifies rw
    ensures Grown(old(rw.edits), rw.edits, FirstsAt(firsts, body))
  {
    hide Inserted, Grown, Unique, Hits, StampLoc;
    GrownNothing(rw.edits, FirstsAt([], body));
    for i := 0 to |firsts|
      invariant Grown(old(rw.edits), rw.edits, FirstsAt(firsts[..i], body))
    {
      var f := firsts[i];
      assert firsts[..i + 1] == firsts[..i] + [f];
      ghost var before := rw.edits;
      ghost var locs := if f.isOuter then [] else LocsOf(f.pair, body);
      if !f.isOuter && f.pair.Some? {
        StampAll(rw, [f.pair.value], body, SetStamp(f.id));
      } else {
        InsertedNothing(rw.edits, SetStamp(f.id));
      }
      InsertedGrows(before, rw.edits, locs, SetStamp(f.id));
      forall at: nat ensures FirstsAt(firsts[..i + 1], body)(at)
                             == FirstsAt(firsts[..i], body)(at) + HitsAt(locs, SetStamp(f.id))(at) {
        FirstStampsSnoc(firsts[..i], f, body, at);
        NoHits(at, SetStamp(f.id));
      }
      GrownMore(old(rw.edits), before, rw.edits, FirstsAt(firsts[..i], body), HitsAt(locs, SetStamp(f.id)),
                FirstsAt(firsts[..i + 1], body));
    }
    assert firsts[..|firsts|] == firsts;
  }

  lemma NoHits(at: nat, item: Item)
    ensures Hits([], at, item) == []
  {
  }

  method StampBlocks(rw: Rewriter, ehcs: seq<EHC>, body: Stmt)
    requires Unique([body])
    modifies rw
    ensures Grown(old(rw.edits), rw.edits, InnersAt(ehcs, body))
  {
    hide Grown, Unique, FirstStamps;
    GrownNothing(rw.edits, InnersAt([], body));
    for i := 0 to |ehcs|
      invariant Grown(old(rw.edits), rw.edits, InnersAt(ehcs[..i], body))
    {
      assert ehcs[..i + 1] == ehcs[..i] + [ehcs[i]];
      ghost var before := rw.edits;
      StampFirsts(rw, ehcs[i].firsts, body);
      forall at: nat ensures InnersAt(ehcs[..i + 1], body)(at)
                             == InnersAt(ehcs[..i], body)(at) + FirstsAt(ehcs[i].firsts, body)(at) {
        InnerStampsSnoc(ehcs[..i], ehcs[i], body, at);
      }
      GrownMore(old(rw.edits), before, rw.edits, InnersAt(ehcs[..i], body), FirstsAt(ehcs[i].firsts, body),
                InnersAt(ehcs[..i + 1], body));
    }
    assert ehcs[..|ehcs|] == ehcs;
  }

  function OuterAt(o: Outer, body: Stmt): nat -> seq<Item> {
    (at: nat) => Hits(UndoLocs(o, body), at, UnsetStamp(o.id)) + Hits(Locs(o.pairs, body), at, SetStamp(o.id))
  }

  /** Unsets behind the undo statement and its duplicates, then sets behind the pairs. */
  method StampOuter(rw: Rewriter, o: Outer, body: Stmt)
    requires Unique([body])
    modifies rw
    ensures Grown(old(rw.edits), rw.edits, OuterAt(o, body))
  {
    hide Inserted, Grown, Unique, Hits, StampLoc;
    StampAll(rw, [o.stmt], body, UnsetStamp(o.id));
    ghost var e1 := rw.edits;
    StampAll(rw, o.duplicates, body, UnsetStamp(o.id));
    ghost var e2 := rw.edits;
    InsertedMore(old(rw.edits), e1, e2, Locs([o.stmt], body), Locs(o.duplicates, body), UnsetStamp(o.id));
    LocsAppend([o.stmt], o.duplicates, body);
    StampAll(rw, o.pairs, body, SetStamp(o.id));
    InsertedGrows(old(rw.edits), e2, UndoLocs(o, body), UnsetStamp(o.id));
    InsertedGrows(e2, rw.edits, Locs(o.pairs, body), SetStamp(o.id));
    GrownMore(old(rw.edits), e2, rw.edits, HitsAt(UndoLocs(o, body), UnsetStamp(o.id)),
              HitsAt(Locs(o.pairs, body), SetStamp(o.id)), OuterAt(o, body));
  }

  method StampOuters(rw: Rewriter, outers: seq<Outer>, body: Stmt)
    requires Unique([body])
    modifies rw
    ensures Grown(old(rw.edits), rw.edits, OutersAt(outers, body))
  {
    hide Grown, Unique, Hits, Locs;
    GrownNothing(rw.edits, OutersAt([], body));
    for i := 0 to |outers|
      invariant Grown(old(rw.edits), rw.edits, OutersAt(outers[..i], body))
    {
      assert outers[..i + 1] == outers[..i] + [outers[i]];
      ghost var before := rw.edits;
      StampOuter(rw, outers[i], body);
      forall at: nat ensures OutersAt(outers[..i + 1], body)(at)
                             == OutersAt(outers[..i], body)(at) + OuterAt(outers[i], body)(at) {
        OuterStampsSnoc(outers[..i], outers[i], body, at);
      }
      GrownMore(old(rw.edits), before, rw.edits, OutersAt(outers[..i], body), OuterAt(outers[i], body),
                OutersAt(outers[..i + 1], body));
    }
    assert outers[..|outers|] == outers;
  }

  method LinesOfBlock(firsts: seq<NewStmt>) returns (lines: seq<Line>)
    ensures lines == BlockLines(firsts)
  {
    lines := [];
    for i := 0 to |firsts|
      invariant lines + BlockLines(firsts[i..]) == BlockLines(firsts)
    {
      assert firsts[i..][1..] == firsts[i + 1..];
      if !firsts[i].isOuter {
        lines := lines + [Line(firsts[i].id, firsts[i].stmt)];
      }
    }
  }

  /** Every piece is put in front of what there is: the blocks first, then the outers. */
  method GenerateLines(ehcs: seq<EHC>, outers: seq<Outer>) returns (lines: seq<Line>)
    ensures lines == CleanupLines(ehcs, outers)
  {
    hide BlockLines;
    lines := [];
    for b := 0 to |ehcs|
      invariant InnerLines(ehcs[b..]) + lines == InnerLines(ehcs)
    {
      assert ehcs[b..][1..] == ehcs[b + 1..];
      var block := LinesOfBlock(ehcs[b].firsts);
      lines := block + lines;
    }
    assert ehcs[|ehcs|..] == [];
    for i := 0 to |outers|
      invariant OuterLines(outers[i..]) + lines == CleanupLines(ehcs, outers)
    {
      assert outers[i..][1..] == outers[i + 1..];
      lines := [Line(outers[i].id, outers[i].stmt)] + lines;
    }
    assert outers[|outers|..] == [];
  }

  // ----- what the inserted text amounts to -----

  predicate OnlyJumps(items: seq<Item>) {
    items != [] ==> items[0].Hgoto? && OnlyJumps(items[1..])
  }

  lemma {:induction false} HitsOnlyJumps(locs: seq<nat>, at: nat)
    ensures OnlyJumps(Hits(locs, at, Hgoto))
  {
    if locs != [] {
      HitsOnlyJumps(locs[1..], at);
      var rest := Hits(locs[1..], at, Hgoto);
      assert ([Hgoto] + rest)[1..] == rest;
      assert [] + rest == rest;
    }
  }

  lemma {:induction false} JumpsDrop(jumps: seq<Item>, stamps: seq<Item>)
    requires OnlyJumps(jumps)
    ensures DropJumps(jumps + stamps) == DropJumps(stamps)
  {
    if jumps == [] {
      assert jumps + stamps == stamps;
    } else {
      assert (jumps + stamps)[1..] == jumps[1..] + stamps;
      JumpsDrop(jumps[1..], stamps);
    }
  }

  lemma {:induction false} NoJumpsAppend(a: seq<Item>, b: seq<Item>)
    requires NoJumps(a) && NoJumps(b)
    ensures NoJumps(a + b)
  {
    if a == [] {
      assert a + b == b;
    } else {
      assert (a + b)[1..] == a[1..] + b;
      NoJumpsAppend(a[1..], b);
    }
  }

  lemma {:induction false} HitsNoJumps(locs: seq<nat>, at: nat, item: Item)
    requires !item.Hgoto?
    ensures NoJumps(Hits(locs, at, item))
  {
    if locs != [] {
      HitsNoJumps(locs[1..], at, item);
      var rest := Hits(locs[1..], at, item);
      assert ([item] + rest)[1..] == rest;
      assert [] + rest == rest;
    }
  }

  lemma {:induction false} StampsNoJumps(slots: seq<Slot>, k: nat, at: nat)
    ensures NoJumps(StampsFrom(slots, k, at))
    decreases |slots| - k
  {
    hide SlotId, Hits, NoJumps;
    if k < |slots| {
      var unsets := Hits(slots[k].undos, at, UnsetStamp(SlotId(k)));
      var sets := Hits(slots[k].pairs, at, SetStamp(SlotId(k)));
      HitsNoJumps(slots[k].undos, at, UnsetStamp(SlotId(k)));
      HitsNoJumps(slots[k].pairs, at, SetStamp(SlotId(k)));
      StampsNoJumps(slots, k + 1, at);
      NoJumpsAppend(unsets, sets);
      NoJumpsAppend(unsets + sets, StampsFrom(slots, k + 1, at));
    } else {
      EmptyNoJumps();
    }
  }

  lemma EmptyNoJumps()
    ensures NoJumps([])
  {
  }

  /** Jumps inserted before the stamps, anywhere, leave the stamps of the plan behind the jumps. */
  lemma JumpsThenStamps(opens: seq<nat>, ends: seq<nat>, slots: seq<Slot>, at: nat)
    ensures ItemsConform(Hits(opens, at, Hgoto) + (Hits(ends, at, Hgoto) + StampsFrom(slots, 0, at)), slots, at)
  {
    hide Hits, StampsFrom;
    var stamps := StampsFrom(slots, 0, at);
    HitsOnlyJumps(opens, at);
    HitsOnlyJumps(ends, at);
    StampsNoJumps(slots, 0, at);
    JumpsDrop(Hits(ends, at, Hgoto), stamps);
    JumpsDrop(Hits(opens, at, Hgoto), Hits(ends, at, Hgoto) + stamps);
  }

  // ----- what holds between the passes -----

  /** Every statement of a block stands in the body. */
  ghost predicate BlocksInside(ehcs: seq<EHC>, body: Stmt) {
    forall b, s :: 0 <= b < |ehcs| && s in ehcs[b].stmts ==> s in Below(body)
  }

  lemma BlocksOfInside(heads: seq<Head>, body: Stmt)
    requires AllResolvable(heads, body) && forall h :: h in heads ==> h.stmt in Below(body)
    ensures BlocksInside(BlocksOf(heads, body), body)
  {
    var ehcs := BlocksOf(heads, body);
    forall b, s | 0 <= b < |ehcs| && s in ehcs[b].stmts ensures s in Below(body) {
      assert heads[b] in heads && Resolvable(heads[b], body);
      BlockInside(heads[b], body, s);
    }
  }

  lemma FilterInside(ehcs: seq<EHC>, p: Stmt -> bool, body: Stmt)
    requires BlocksInside(ehcs, body)
    ensures BlocksInside(FilterBlocks(ehcs, p), body)
  {
    forall b, s | 0 <= b < |ehcs| && s in FilterBlocks(ehcs, p)[b].stmts ensures s in Below(body) {
      FilterMembers(ehcs[b].stmts, p, s);
    }
  }

  lemma ReturnlessInside(ehcs: seq<EHC>, body: Stmt)
    requires BlocksInside(ehcs, body)
    ensures BlocksInside(ReturnlessBlocks(ehcs), body)
  {
    forall b, s | 0 <= b < |ehcs| && s in ReturnlessBlocks(ehcs)[b].stmts ensures s in Below(body) {
      FilterMembers(ehcs[b].stmts, NoReturn(ReturnedVars(ehcs[b].stmts)), s);
    }
  }

  lemma JudgeInside(ehcs: seq<EHC>, undoFns: seq<string>, body: Stmt)
    requires BlocksInside(ehcs, body)
    ensures BlocksInside(Judge(ehcs, undoFns, 0, 0), body)
  {
    var judged := Judge(ehcs, undoFns, 0, 0);
    if ehcs != [] {
      JudgeAt(ehcs, undoFns, 0, 0, 0);
    }
    forall b, s | 0 <= b < |judged| && s in judged[b].stmts ensures s in Below(body) {
      JudgeAt(ehcs, undoFns, 0, 0, b);
    }
  }

  /** A new statement as the novelty pass leaves it. */
  ghost predicate JustFound(f: NewStmt, body: Stmt) {
    f.stmt in Below(body) && !InMacro(f.stmt, body) && !f.isOuter
  }

  ghost predicate AllJustFound(ehcs: seq<EHC>, body: Stmt) {
    forall b, i :: 0 <= b < |ehcs| && 0 <= i < |ehcs[b].firsts| ==> JustFound(ehcs[b].firsts[i], body)
  }

  lemma NewsAreFound(ehcs: seq<EHC>, body: Stmt)
    requires BlocksInside(ehcs, body)
    ensures AllJustFound(NewBlocks(ehcs, body), body)
  {
    var news := NewBlocks(ehcs, body);
    forall b, i | 0 <= b < |news| && 0 <= i < |news[b].firsts| ensures JustFound(news[b].firsts[i], body) {
      var kept := Filter(ehcs[b].stmts, IsNew(ehcs, b, body));
      AsNewAt(kept, ehcs[b].kind);
      FilterMembers(ehcs[b].stmts, IsNew(ehcs, b, body), kept[i]);
    }
  }

  lemma FoundArePrintable(ehcs: seq<EHC>, body: Stmt)
    requires AllJustFound(ehcs, body) && forall s :: s in Below(body) ==> s.text != ""
    ensures forall e :: e in ehcs ==> Printable(e.firsts)
  {
    forall e, f | e in ehcs && f in e.firsts ensures f.stmt.text != "" {
      var b :| 0 <= b < |ehcs| && ehcs[b] == e;
      var i :| 0 <= i < |e.firsts| && e.firsts[i] == f;
      assert JustFound(ehcs[b].firsts[i], body);
    }
  }

  /** After the pair search. */
  lemma PairedAreFound(e: EHC, e': EHC, body: Stmt, startLine: nat, endLine: nat)
    requires Printable(e.firsts) && BlockPaired(e, e', body, startLine, endLine)
    requires forall i :: 0 <= i < |e.firsts| ==> JustFound(e.firsts[i], body)
    ensures PairsFound(e'.firsts, body)
  {
    hide Candidates, IsPair, MayHavePair, InMacro;
    forall f | f in e'.firsts
      ensures f.stmt in Below(body) && !InMacro(f.stmt, body) && (f.isOuter ==> MayHavePair(f.stmt))
    {
      var i :| 0 <= i < |e'.firsts| && e'.firsts[i] == f;
      assert JustFound(e.firsts[i], body) && Paired(e.firsts[i], e'.firsts[i], body, startLine, endLine);
      if f.isOuter {
        PairsAreFew(f.stmt, f.pair.value);
      }
    }
  }

  lemma {:induction false} MarkBlocksAt(ehcs: seq<EHC>, outers: seq<Outer>)
    ensures |MarkBlocks(ehcs, outers)| == |ehcs|
    ensures forall b :: 0 <= b < |ehcs| ==>
              MarkBlocks(ehcs, outers)[b] == ehcs[b].(firsts := MarkFirsts(ehcs[b].firsts, outers))
  {
    hide MarkFirsts;
    if ehcs != [] {
      MarkBlocksAt(ehcs[1..], outers);
    }
  }

  lemma {:induction false} MarkingSettles(ehcs: seq<EHC>, undoFns: seq<string>, body: Stmt)
    requires "kfree" in undoFns && "kzfree" in undoFns
    requires forall b :: 0 <= b < |ehcs| ==> PairsFound(ehcs[b].firsts, body)
    ensures var outers := Merge(OutersIn(body.kids, undoFns, body));
            DistinctSources(outers) && Settled(MarkBlocks(ehcs, outers), outers)
  {
    hide PairsFound, MarkFirsts, Merge, OutersIn, HasSource, DistinctSources, MarkBlocks;
    var outers := Merge(OutersIn(body.kids, undoFns, body));
    var marked := MarkBlocks(ehcs, outers);
    MarkBlocksAt(ehcs, outers);
    NoneFound(body);
    NoUndoLostOrDoubled([], undoFns, body);
    forall b, i | 0 <= b < |marked| && 0 <= i < |marked[b].firsts|
      ensures marked[b].firsts[i].isOuter <==> HasSource(outers, marked[b].firsts[i].stmt.source)
    {
      NoUndoLostOrDoubled(ehcs[b].firsts, undoFns, body);
    }
  }

  lemma NoneFound(body: Stmt)
    ensures PairsFound([], body)
  {
  }

  lemma {:induction false} PairsKeepSources(outers: seq<Outer>, body: Stmt, choose: Outer -> seq<Stmt>, source: string)
    ensures HasSource(WithPairs(outers, body, choose), source) <==> HasSource(outers, source)
    ensures DistinctSources(outers) ==> DistinctSources(WithPairs(outers, body, choose))
  {
    var chosen := WithPairs(outers, body, choose);
    if HasSource(outers, source) {
      var i :| 0 <= i < |outers| && outers[i].stmt.source == source;
      assert chosen[i] in chosen;
    }
    if HasSource(chosen, source) {
      var i :| 0 <= i < |chosen| && chosen[i].stmt.source == source;
      assert outers[i] in outers;
    }
  }

  lemma {:induction false} NumberFirstsAt(firsts: seq<NewStmt>, k: nat)
    ensures |NumberFirsts(firsts, k)| == |firsts|
    ensures forall i :: 0 <= i < |firsts| ==>
              && NumberFirsts(firsts, k)[i].stmt == firsts[i].stmt
              && NumberFirsts(firsts, k)[i].isOuter == firsts[i].isOuter
  {
    hide SlotId;
    if firsts != [] {
      NumberFirstsAt(firsts[1..], if firsts[0].isOuter then k else k + 1);
    }
  }

  lemma {:induction false} NumberBlocksAt(ehcs: seq<EHC>, k: nat, b: nat)
    requires b < |ehcs|
    ensures |NumberBlocks(ehcs, k)| == |ehcs|
    ensures NumberBlocks(ehcs, k)[b] == ehcs[b].(firsts := NumberFirsts(ehcs[b].firsts, k + CountSlots(ehcs[..b])))
  {
    hide NumberFirsts, CountInner;
    var rest, c := ehcs[1..], CountInner(ehcs[0].firsts);
    if b > 0 {
      NumberBlocksAt(rest, k + c, b - 1);
      assert ehcs[..b][1..] == rest[..b - 1];
    } else if rest != [] {
      NumberBlocksAt(rest, k + c, 0);
    }
  }

  lemma {:induction false} NumberOutersAt(outers: seq<Outer>, k: nat)
    ensures |NumberOuters(outers, k)| == |outers|
    ensures forall i :: 0 <= i < |outers| ==> NumberOuters(outers, k)[i] == outers[i].(id := SlotId(k + i))
  {
    hide SlotId;
    if outers != [] {
      NumberOutersAt(outers[1..], k + 1);
    }
  }

  lemma NumberedSources(outers: seq<Outer>, k: nat, source: string)
    ensures HasSource(NumberOuters(outers, k), source) <==> HasSource(outers, source)
    ensures DistinctSources(outers) ==> DistinctSources(NumberOuters(outers, k))
  {
    hide SlotId;
    var numbered := NumberOuters(outers, k);
    NumberOutersAt(outers, k);
    if HasSource(outers, source) {
      var i :| 0 <= i < |outers| && outers[i].stmt.source == source;
      assert numbered[i] in numbered;
    }
    if HasSource(numbered, source) {
      var i :| 0 <= i < |numbered| && numbered[i].stmt.source == source;
      assert outers[i] in outers;
    }
  }

  lemma NumberNoBlocks()
    ensures NumberBlocks([], 0) == []
  {
  }

  lemma {:induction false} NumberFirstsTwice(firsts: seq<NewStmt>, k: nat)
    ensures NumberFirsts(NumberFirsts(firsts, k), k) == NumberFirsts(firsts, k)
    ensures CountInner(NumberFirsts(firsts, k)) == CountInner(firsts)
  {
    hide SlotId;
    if firsts != [] {
      var f := firsts[0];
      var n := if f.isOuter then k else k + 1;
      NumberFirstsTwice(firsts[1..], n);
      assert NumberFirsts(firsts, k)[1..] == NumberFirsts(firsts[1..], n);
    }
  }

  lemma {:induction false} NumberBlocksTwice(ehcs: seq<EHC>, k: nat)
    ensures NumberBlocks(NumberBlocks(ehcs, k), k) == NumberBlocks(ehcs, k)
    ensures CountSlots(NumberBlocks(ehcs, k)) == CountSlots(ehcs)
  {
    hide NumberFirsts, CountInner;
    if ehcs != [] {
      NumberFirstsTwice(ehcs[0].firsts, k);
      var n := k + CountInner(ehcs[0].firsts);
      NumberBlocksTwice(ehcs[1..], n);
      assert NumberBlocks(ehcs, k)[1..] == NumberBlocks(ehcs[1..], n);
    }
  }

  lemma {:induction false} NumberOutersTwice(outers: seq<Outer>, k: nat)
    ensures NumberOuters(NumberOuters(outers, k), k) == NumberOuters(outers, k)
  {
    hide SlotId;
    if outers != [] {
      NumberOutersTwice(outers[1..], k + 1);
      assert NumberOuters(outers, k)[1..] == NumberOuters(outers[1..], k + 1);
    }
  }

  lemma NumberingKeepsSettled(ehcs: seq<EHC>, outers: seq<Outer>)
    requires Settled(ehcs, outers)
    ensures Settled(NumberBlocks(ehcs, 0), NumberOuters(outers, CountSlots(ehcs)))
  {
    hide SlotId, HasSource, NumberBlocks, NumberOuters, NumberFirsts;
    var e, o := NumberBlocks(ehcs, 0), NumberOuters(outers, CountSlots(ehcs));
    if ehcs != [] {
      NumberBlocksAt(ehcs, 0, 0);
    } else {
      assert e == [] by { NumberNoBlocks(); }
    }
    forall b, i | 0 <= b < |e| && 0 <= i < |e[b].firsts|
      ensures e[b].firsts[i].isOuter <==> HasSource(o, e[b].firsts[i].stmt.source)
    {
      NumberBlocksAt(ehcs, 0, b);
      NumberFirstsAt(ehcs[b].firsts, CountSlots(ehcs[..b]));
      NumberedSources(outers, CountSlots(ehcs), e[b].firsts[i].stmt.source);
    }
  }

  lemma ChoosingKeepsSettled(ehcs: seq<EHC>, outers: seq<Outer>, body: Stmt, choose: Outer -> seq<Stmt>)
    requires Settled(ehcs, outers)
    ensures Settled(ehcs, WithPairs(outers, body, choose))
  {
    hide HasSource, WithPairs;
    forall b, i | 0 <= b < |ehcs| && 0 <= i < |ehcs[b].firsts|
      ensures ehcs[b].firsts[i].isOuter <==> HasSource(WithPairs(outers, body, choose), ehcs[b].firsts[i].stmt.source)
    {
      PairsKeepSources(outers, body, choose, ehcs[b].firsts[i].stmt.source);
    }
  }

  lemma InsertedAt(before: map<nat, seq<Item>>, after: map<nat, seq<Item>>, locs: seq<nat>, item: Item, at: nat)
    requires Inserted(before, after, locs, item)
    ensures Behind(after, at) == Behind(before, at) + Hits(locs, at, item)
  {
  }

  lemma GrownAt(before: map<nat, seq<Item>>, after: map<nat, seq<Item>>, more: nat -> seq<Item>, at: nat)
    requires Grown(before, after, more)
    ensures Behind(after, at) == Behind(before, at) + more(at)
  {
  }

  lemma Joined<T>(a: seq<T>, b: seq<T>, c: seq<T>, d: seq<T>)
    ensures [] + a + b + c + d == a + (b + (c + d))
  {
  }

  lemma FourInsertions(e1: map<nat, seq<Item>>, e2: map<nat, seq<Item>>, e3: map<nat, seq<Item>>, e4: map<nat,
          seq<Item>>, opens: seq<nat>, ends: seq<nat>, inner: nat -> seq<Item>, outer: nat -> seq<Item>, at: nat)
    requires Inserted(map[], e1, opens, Hgoto) && Inserted(e1, e2, ends, Hgoto)
    requires Grown(e2, e3, inner) && Grown(e3, e4, outer)
    ensures Behind(e4, at) == Hits(opens, at, Hgoto) + (Hits(ends, at, Hgoto) + (inner(at) + outer(at)))
  {
    assert Behind(map[], at) == [];
    hide Hits, Inserted, Grown, Behind;
    InsertedAt(map[], e1, opens, Hgoto, at);
    InsertedAt(e1, e2, ends, Hgoto, at);
    GrownAt(e2, e3, inner, at);
    GrownAt(e3, e4, outer, at);
    Joined(Hits(opens, at, Hgoto), Hits(ends, at, Hgoto), inner(at), outer(at));
  }

  lemma {:induction false} HitsAre(locs: seq<nat>, at: nat, item: Item)
    ensures Hits(locs, at, item) != [] <==> at in locs
    ensures Hits(locs, at, item) != [] ==> Hits(locs, at, item)[0] == item
  {
    if locs != [] {
      HitsAre(locs[1..], at, item);
      assert locs == [locs[0]] + locs[1..];
    }
  }

  /** A location holds a jump exactly when it is one of these. */
  ghost predicate JumpsAt(edits: map<nat, seq<Item>>, places: seq<nat>) {
    forall at: nat :: HasJump(Behind(edits, at)) <==> at in places
  }

  lemma JumpsFirst(opens: seq<nat>, ends: seq<nat>, stamps: seq<Item>, at: nat)
    requires NoJumps(stamps)
    ensures HasJump(Hits(opens, at, Hgoto) + (Hits(ends, at, Hgoto) + stamps)) <==> at in opens + ends
  {
    HitsAre(opens, at, Hgoto);
    HitsAre(ends, at, Hgoto);
    hide Hits;
    var a, b := Hits(opens, at, Hgoto), Hits(ends, at, Hgoto);
    if a == [] {
      assert a + (b + stamps) == b + stamps;
      if b == [] {
        assert b + stamps == stamps;
      }
    }
  }

  /** The file after the four insertions: which locations hold a jump, and which stamps stand behind the jumps. */
  lemma TextConforms(e1: map<nat, seq<Item>>, e2: map<nat, seq<Item>>, e3: map<nat, seq<Item>>, e4: map<nat, seq<Item>>,
                     opens: seq<nat>, ends: seq<nat>, ehcs: seq<EHC>, outers: seq<Outer>, body: Stmt)
    requires Inserted(map[], e1, opens, Hgoto) && Inserted(e1, e2, ends, Hgoto)
    requires Grown(e2, e3, InnersAt(NumberBlocks(ehcs, 0), body))
    requires Grown(e3, e4, OutersAt(NumberOuters(outers, CountSlots(ehcs)), body))
    ensures EditsConform(e4, SlotsOf(ehcs, outers, body)) && JumpsAt(e4, opens + ends)
  {
    hide NoJumps, HasJump, ItemsConform, Hits, InnerStamps, OuterStamps, NumberBlocks, NumberOuters, CountSlots,
         StampsFrom, Behind, Inserted;
    hide Grown, SlotsOf;
    var slots := SlotsOf(ehcs, outers, body);
    var inner, outer := InnersAt(NumberBlocks(ehcs, 0), body), OutersAt(NumberOuters(outers, CountSlots(ehcs)), body);
    forall at: nat
      ensures ItemsConform(Behind(e4, at), slots, at) && (HasJump(Behind(e4, at)) <==> at in opens + ends)
    {
      FourInsertions(e1, e2, e3, e4, opens, ends, inner, outer, at);
      StampsBySlot(ehcs, outers, body, at);
      JumpsThenStamps(opens, ends, slots, at);
      StampsNoJumps(slots, 0, at);
      JumpsFirst(opens, ends, StampsFrom(slots, 0, at), at);
    }
  }

  /** The lines of the cleanup block, if there is one. */
  function CleanupOf(lines: Option<seq<Line>>): seq<Guard> {
    match lines
    case Some(all) => AsGuards(all)
    case None => []
  }

  /** The generated function keeps what the unwinding relies on; without any jump it needs no cleanup block. */
  lemma GeneratedConforms(body: Stmt, edits: map<nat, seq<Item>>, callees: map<string, nat>, ehcs: seq<EHC>,
                          outers: seq<Outer>, lines: Option<seq<Line>>)
    requires EditsConform(edits, SlotsOf(ehcs, outers, body))
    requires lines.Some? ==> lines.value == CleanupLines(NumberBlocks(ehcs, 0), NumberOuters(outers, CountSlots(ehcs)))
    requires lines.None? ==> JumpsAt(edits, [])
    ensures FnConforms(Fn(EmitBody(body, edits, callees), false, CleanupOf(lines)), PlanOf(ehcs, outers, body))
  {
    BodyConforms(body, edits, callees, SlotsOf(ehcs, outers, body));
    CleanupBySlot(ehcs, outers, body);
    if lines.None? {
      BodyJumpFree(body, edits, callees, SlotsOf(ehcs, outers, body));
    }
    hide EditsConform, SlotsOf, OrderOf, CleanupLines, NumberBlocks, NumberOuters, EmitBody, CodeConforms, JumpFree;
  }

  ghost predicate NoneJump(edits: map<nat, seq<Item>>) {
    forall at: nat :: NoJumps(Behind(edits, at))
  }

  lemma BodyJumpFree(body: Stmt, edits: map<nat, seq<Item>>, callees: map<string, nat>, slots: seq<Slot>)
    requires EditsConform(edits, slots) && JumpsAt(edits, [])
    ensures JumpFree(EmitBody(body, edits, callees))
  {
    assert NoneJump(edits) by {
      forall at: nat ensures NoJumps(Behind(edits, at)) {
        assert ItemsConform(Behind(edits, at), slots, at);
        StampsNoJumps(slots, 0, at);
      }
    }
    TopJumpFree(body.kids, CleanupPlace(body.kids), edits, callees);
  }

  lemma {:induction false} TopJumpFree(kids: seq<Stmt>, k: nat, edits: map<nat, seq<Item>>, callees: map<string, nat>)
    requires NoneJump(edits)
    ensures JumpFree(EmitTop(kids, k, edits, callees))
  {
    hide NoneJump, EmitAll, Emit;
    if kids == [] || k == 0 {
      AllJumpFree(kids, edits, callees);
    } else {
      OneJumpFree(kids[0], edits, callees);
      TopJumpFree(kids[1..], k - 1, edits, callees);
    }
  }

  lemma {:induction false} OneJumpFree(s: Stmt, edits: map<nat, seq<Item>>, callees: map<string, nat>)
    requires NoneJump(edits)
    ensures JumpFree(Emit(s, edits, callees))
    decreases s, 1
  {
    hide NoJumps, Behind;
    match s.kind
    case Compound(_) => AllJumpFree(s.kids, edits, callees);
    case Labelled => AllJumpFree(s.kids, edits, callees);
    case IfStmt(_) =>
      if |s.kids| >= 2 {
        OneJumpFree(s.kids[1], edits, callees);
        if |s.kids| > 2 {
          OneJumpFree(s.kids[2], edits, callees);
        }
      }
    case ForStmt(_) => if s.kids != [] { OneJumpFree(s.kids[|s.kids|-1], edits, callees); }
    case WhileStmt(_) => if s.kids != [] { OneJumpFree(s.kids[|s.kids|-1], edits, callees); }
    case _ =>
  }

  lemma {:induction false} AllJumpFree(ss: seq<Stmt>, edits: map<nat, seq<Item>>, callees: map<string, nat>)
    requires NoneJump(edits)
    ensures JumpFree(EmitAll(ss, edits, callees))
    decreases ss, 0
  {
    if ss != [] {
      OneJumpFree(ss[0], edits, callees);
      AllJumpFree(ss[1..], edits, callees);
    }
  }

  lemma BodyConforms(body: Stmt, edits: map<nat, seq<Item>>, callees: map<string, nat>, slots: seq<Slot>)
    requires EditsConform(edits, slots)
    ensures CodeConforms(EmitBody(body, edits, callees), slots)
  {
    TopConforms(body.kids, CleanupPlace(body.kids), edits, callees, slots);
  }

  lemma {:induction false} TopConforms(kids: seq<Stmt>, k: nat, edits: map<nat, seq<Item>>, callees: map<string, nat>,
                                       slots: seq<Slot>)
    requires EditsConform(edits, slots)
    ensures CodeConforms(EmitTop(kids, k, edits, callees), slots)
  {
    hide EditsConform, EmitAll, Emit;
    if kids == [] || k == 0 {
      EmitAllConforms(kids, edits, callees, slots);
    } else {
      EmitConforms(kids[0], edits, callees, slots);
      TopConforms(kids[1..], k - 1, edits, callees, slots);
    }
  }

  lemma PlanIsComplete(ehcs: seq<EHC>, outers: seq<Outer>, body: Stmt)
    ensures var plan := PlanOf(ehcs, outers, body); Lists(plan.order, 0, |plan.slots|)
  {
    hide Lists;
    InnerSlotsCount(ehcs, body);
    OuterSlotsCount(outers, body);
    OrderListsAll(ehcs, outers);
  }

  lemma {:induction false} OuterSlotsCount(outers: seq<Outer>, body: Stmt)
    ensures |OuterSlots(outers, body)| == |outers|
  {
    if outers != [] {
      OuterSlotsCount(outers[1..], body);
    }
  }
}
