/** What the pair search settles on, read off the statements. */
module Pairing {
  import opened Basics
  import opened Tree
  import opened Blocks
  import opened Outers
  import opened Similarity
  import opened Ranking
  import opened Passes

  /** Statements that a new statement may be paired with by likeness. */
  predicate MayBePair(s: Stmt, t: Stmt) {
    t.kind.Assign? || t.kind.Update? || t.kind.Call? || t.kind.IndirectCall? || t.kind.Unary?
    || (s.kind.IfStmt? && t.kind.IfStmt?)
  }

  lemma {:induction false} ScoredAt(s: Stmt, ss: seq<Stmt>)
    requires s.text != ""
    ensures |Scored(s, ss)| == |ss|
    ensures forall i :: 0 <= i < |ss| ==> Scored(s, ss)[i] == Candidate(ss[i], PairEvaluation(s.text, ss[i].text))
  {
    hide PairEvaluation;
    if ss != [] {
      ScoredAt(s, ss[1..]);
    }
  }

  /** A new statement without a real pair gets the likest statement between the lines: every assignment, call and unary
      operation there takes part, and for a conditional every conditional, and none of them is likelier. */
  lemma LikestIsChosen(f: NewStmt, f': NewStmt, body: Stmt, startLine: nat, endLine: nat, t: Stmt)
    requires f.stmt.text != "" && Paired(f, f', body, startLine, endLine) && !f'.isOuter
    requires t in Below(body) && MayBePair(f.stmt, t) && startLine < t.startLine < endLine
    ensures f'.pair.Some? && f'.pair.value in Below(body) && MayBePair(f.stmt, f'.pair.value)
    ensures startLine < f'.pair.value.startLine < endLine
    ensures PairEvaluation(f.stmt.text, f'.pair.value.text) >= PairEvaluation(f.stmt.text, t.text)
  {
    hide PairEvaluation, HasPair, LastChildren, FirstPair, IsPair;
    var p := IsCandidate(f.stmt, startLine, endLine);
    var ss := Filter(Below(body), p);
    var cs := Candidates(f.stmt, body.kids, startLine, endLine);
    ScoredAt(f.stmt, ss);
    FilterMembers(Below(body), p, t);
    assert t in ss;
    var i :| 0 <= i < |ss| && ss[i] == t;
    BestIsFirstMaximum(cs);
    var k := BestIndex(cs);
    assert cs[i].score <= cs[k].score;
    assert ss[k] in ss;
    FilterMembers(Below(body), p, ss[k]);
  }

  /** The pairs that count as real: memory and its allocation, and a lock's release and its taking. */
  lemma RealPairs(s: Stmt, t: Stmt)
    requires s.kind.Call?
    ensures s.kind.fn in ["kfree", "kzfree"] ==>
              (IsPair(s, t) <==> t.kind.Assign? && t.kind.lhs == Arg0(s)
                                 && (Contains(t.kind.rhs, "kmalloc") || Contains(t.kind.rhs, "kzalloc")))
    ensures s.kind.fn == "mutex_unlock" ==>
              (IsPair(s, t) <==> t.kind.Call? && t.kind.fn == "mutex_lock" && Arg0(t) == Arg0(s))
    ensures s.kind.fn == "spin_unlock" ==>
              (IsPair(s, t) <==> t.kind.Call? && t.kind.fn in ["spin_lock", "_raw_spin_lock"] && Arg0(t) == Arg0(s))
    ensures s.kind.fn == "spin_unlock_irqrestore" ==>
              (IsPair(s, t) <==> t.kind.Call? && t.kind.fn in ["spin_lock_irqsave", "_raw_spin_lock_irqsave"]
                                 && (Arg0(t) == Arg0(s) || Contains(Arg0(s), Arg0(t)) || Contains(Arg0(t), Arg0(s))))
    ensures s.kind.fn !in ["kfree", "kzfree", "mutex_unlock", "spin_unlock", "spin_unlock_irqrestore"] ==> !IsPair(s, t)
  {
    hide Contains, Arg0;
  }

  /** So a new statement is marked as outer by the pair search only as the release of something taken before it, between
      the lines searched. */
  lemma MarkedAreReleases(f: NewStmt, f': NewStmt, body: Stmt, startLine: nat, endLine: nat)
    requires f.stmt.text != "" && Paired(f, f', body, startLine, endLine) && f'.isOuter
    ensures f'.pair.Some? && f'.pair.value in Below(body) && startLine < f'.pair.value.startLine < endLine
    ensures f.stmt.kind.Call?
    ensures f.stmt.kind.fn in ["kfree", "kzfree"] ==>
              var t := f'.pair.value;
              t.kind.Assign? && t.kind.lhs == Arg0(f.stmt)
              && (Contains(t.kind.rhs, "kmalloc") || Contains(t.kind.rhs, "kzalloc"))
    ensures f.stmt.kind.fn !in ["kfree", "kzfree"] ==> f'.pair.value.kind.Call?
    ensures f.stmt.kind.fn in ["kfree", "kzfree", "mutex_unlock", "spin_unlock", "spin_unlock_irqrestore"]
  {
    hide Contains, Arg0, Candidates, LastChildren, HasPair;
    var p := f'.pair.value;
    IsCallPair(f.stmt, p);
    RealPairs(f.stmt, p);
  }

  lemma IsCallPair(s: Stmt, t: Stmt)
    requires IsPair(s, t)
    ensures s.kind.Call?
  {
  }
}
