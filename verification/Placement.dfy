/** Which statements keep a jump, read off the statement tree. */
module Placement {
  import opened Basics
  import opened Tree
  import opened Jumps
  import opened Passes
  import opened Collected

  /** The condition of the conditional that s is a child of mentions it. */
  ghost predicate InTest(s: Stmt, body: Stmt) {
    exists p :: p in Flatten([body]) && s in p.kids && (p.kind.IfStmt? || p.kind.ForStmt? || p.kind.WhileStmt?)
                && Contains(p.kind.cond, s.source)
  }

  /** A statement outside macros that no jump may share a line with. */
  ghost predicate Bars(s: Stmt, body: Stmt) {
    !s.macro && (s.kind.Return? || s.kind.Goto? || s.kind.Break? || s.kind.Continue? || s.kind.Decl?
                 || s.kind.ForStmt? || InTest(s, body))
  }

  lemma BarsAre(s: Stmt, body: Stmt)
    requires Unique([body]) && s in Below(body)
    ensures Bars(s, body) <==> Forbids(body)(s)
  {
    hide Unique, Contains;
    HasParent(body, s);
    var p :| p in Flatten([body]) && s in p.kids;
    ParentIsTheParent([body], p, s);
    if InTest(s, body) {
      var q :| q in Flatten([body]) && s in q.kids && (q.kind.IfStmt? || q.kind.ForStmt? || q.kind.WhileStmt?)
               && Contains(q.kind.cond, s.source);
      ParentIsTheParent([body], q, s);
    }
  }

  lemma {:induction false} MainIsInside(forest: seq<Stmt>)
    ensures forall s :: s in InMain(forest) ==> s in Flatten(forest)
  {
    if forest != [] {
      MainIsInside(forest[0].kids);
      MainIsInside(forest[1..]);
    }
  }

  /** What the visit over a forest looks at: the statements in the main file none around which ends outside of it. */
  lemma {:induction false} MainIs(forest: seq<Stmt>, s: Stmt)
    requires Unique(forest)
    ensures s in InMain(forest) <==> s in Flatten(forest) && forall x :: x in Path(forest, s.id) ==> !x.foreign
  {
    if forest != [] {
      var t, rest := forest[0], forest[1..];
      MainIs(t.kids, s);
      MainIs(rest, s);
      if s in Flatten(forest) {
        FlattenIds(forest, s);
      }
      if s in Flatten(t.kids) {
        FlattenIds(t.kids, s);
      }
      if s in Flatten(rest) {
        FlattenIds(rest, s);
      }
      PathFinds(t.kids, s.id);
      MainIsInside(t.kids);
      MainIsInside(rest);
      if s == t {
        assert Path(forest, s.id) == [t];
        assert s !in Flatten(t.kids) && s !in Flatten(rest);
      } else if s in Flatten(t.kids) {
        assert Path(forest, s.id) == [t] + Path(t.kids, s.id);
        assert s !in Flatten(rest);
      } else if s in Flatten(rest) {
        assert Path(forest, s.id) == Path(rest, s.id);
      }
    }
  }

  /** Statement k of the list is kept: it passes p, and shares no line with what passes q or with an earlier one that
      passes p. */
  ghost predicate KeptAt(ss: seq<Stmt>, p: Stmt -> bool, q: Stmt -> bool, k: nat) {
    && k < |ss| && p(ss[k])
    && (forall t :: t in ss && q(t) ==> !Collide(t, ss[k]))
    && forall j :: 0 <= j < k && p(ss[j]) ==> !Collide(ss[j], ss[k])
  }

  lemma SurvivesIsKept(ss: seq<Stmt>, p: Stmt -> bool, q: Stmt -> bool, m: nat) returns (k: nat)
    requires m < |Filter(ss, p)| && Survives(Filter(ss, p), Filter(ss, q), m)
    ensures k < |ss| && KeptAt(ss, p, q, k) && ss[k] == Filter(ss, p)[m]
  {
    hide Collide;
    var places, forbidden := Filter(ss, p), Filter(ss, q);
    k := Origin(ss, p, m);
    forall t | t in ss && q(t) ensures !Collide(t, ss[k]) {
      FilterMembers(ss, q, t);
    }
    forall j | 0 <= j < k && p(ss[j]) ensures !Collide(ss[j], ss[k]) {
      var i := Image(ss, p, j);
      Earlier(ss, p, j, i, k, m);
      assert !Collide(places[i], places[m]);
    }
  }

  lemma KeptSurvives(ss: seq<Stmt>, p: Stmt -> bool, q: Stmt -> bool, k: nat) returns (m: nat)
    requires KeptAt(ss, p, q, k)
    ensures m < |Filter(ss, p)| && Survives(Filter(ss, p), Filter(ss, q), m) && ss[k] == Filter(ss, p)[m]
  {
    hide Collide;
    var places, forbidden := Filter(ss, p), Filter(ss, q);
    m := Image(ss, p, k);
    forall i | 0 <= i < m ensures !Collide(places[i], places[m]) {
      var j := Origin(ss, p, i);
      Earlier(ss, p, j, i, k, m);
    }
    forall t | t in forbidden ensures !Collide(t, places[m]) {
      FilterMembers(ss, q, t);
    }
  }

  lemma SurvivorsOfFilter(ss: seq<Stmt>, p: Stmt -> bool, q: Stmt -> bool, s: Stmt)
    ensures s in Survivors(Filter(ss, p), Filter(ss, q), 0) <==>
            exists k: nat :: k < |ss| && KeptAt(ss, p, q, k) && ss[k] == s
  {
    hide KeptAt, Survives;
    var places, forbidden := Filter(ss, p), Filter(ss, q);
    SurvivorsAre(places, forbidden, 0, s);
    if s in Survivors(places, forbidden, 0) {
      var m :| 0 <= m < |places| && places[m] == s && Survives(places, forbidden, m);
      var k := SurvivesIsKept(ss, p, q, m);
    }
    if k: nat :| k < |ss| && KeptAt(ss, p, q, k) && ss[k] == s {
      var m := KeptSurvives(ss, p, q, k);
    }
  }

  /** The statement in place k keeps its jump: it ends with a semicolon and does not bar jumps, and it shares its
      first or last line with nothing that bars them, and with no earlier statement that ends with a semicolon and does
      not bar them, whether that one kept its jump or not. */
  ghost predicate KeepsJump(ss: seq<Stmt>, body: Stmt, k: nat) {
    && k < |ss| && ss[k].semi && !Bars(ss[k], body)
    && (forall t :: t in ss && Bars(t, body) ==> t.startLine != ss[k].startLine && t.endLine != ss[k].endLine)
    && forall j :: 0 <= j < k && ss[j].semi && !Bars(ss[j], body) ==>
         ss[j].startLine != ss[k].startLine && ss[j].endLine != ss[k].endLine
  }

  lemma KeptJumps(ss: seq<Stmt>, body: Stmt, k: nat)
    requires forall t :: t in ss ==> (Bars(t, body) <==> Forbids(body)(t))
    ensures KeptAt(ss, IsPlace(body), Forbids(body), k) <==> KeepsJump(ss, body, k)
  {
    hide Bars, Forbids;
  }

  /** The jumps of a function, statement by statement. */
  lemma JumpsAre(body: Stmt, s: Stmt)
    requires Unique([body])
    ensures s in JumpsIn(body) <==>
            exists k: nat :: k < |InMain(body.kids)| && KeepsJump(InMain(body.kids), body, k)
                             && InMain(body.kids)[k] == s
  {
    hide JumpsIn, KeepsJump, InMain, Unique;
    if s in JumpsIn(body) {
      var k := JumpIsKept(body, s);
    }
    if k: nat :| k < |InMain(body.kids)| && KeepsJump(InMain(body.kids), body, k) && InMain(body.kids)[k] == s {
      KeptIsJump(body, k);
    }
  }

  lemma JumpIsKept(body: Stmt, s: Stmt) returns (k: nat)
    requires Unique([body]) && s in JumpsIn(body)
    ensures k < |InMain(body.kids)| && KeepsJump(InMain(body.kids), body, k) && InMain(body.kids)[k] == s
  {
    hide Bars, Unique, Forbids, IsPlace, InMain, Below, KeptAt, KeepsJump, Survivors;
    var ss, p, q := InMain(body.kids), IsPlace(body), Forbids(body);
    SurvivorsOfFilter(ss, p, q, s);
    BarsInMain(body);
    k :| k < |ss| && KeptAt(ss, p, q, k) && ss[k] == s;
    KeptJumps(ss, body, k);
  }

  lemma KeptIsJump(body: Stmt, k: nat)
    requires Unique([body]) && k < |InMain(body.kids)| && KeepsJump(InMain(body.kids), body, k)
    ensures InMain(body.kids)[k] in JumpsIn(body)
  {
    hide Bars, Unique, Forbids, IsPlace, InMain, Below, KeptAt, KeepsJump, Survivors;
    var ss, p, q := InMain(body.kids), IsPlace(body), Forbids(body);
    SurvivorsOfFilter(ss, p, q, ss[k]);
    BarsInMain(body);
    KeptJumps(ss, body, k);
  }

  lemma BarsInMain(body: Stmt)
    requires Unique([body])
    ensures forall t :: t in InMain(body.kids) ==> (Bars(t, body) <==> Forbids(body)(t))
  {
    hide Bars, Unique, Forbids, InMain, Below;
    MainIsInside(body.kids);
    forall t | t in InMain(body.kids) ensures Bars(t, body) <==> Forbids(body)(t) {
      InBelow(body, t);
      BarsAre(t, body);
    }
  }

  lemma InBelow(body: Stmt, t: Stmt)
    requires t in Flatten(body.kids)
    ensures t in Below(body)
  {
  }

  /** Where element m of a filtered list stands in the list. */
  function Position<T>(s: seq<T>, p: T -> bool, m: nat): nat
    requires m < |Filter(s, p)|
  {
    if p(s[0]) then if m == 0 then 0 else 1 + Position(s[1..], p, m - 1) else 1 + Position(s[1..], p, m)
  }

  lemma {:induction false} Origin<T>(s: seq<T>, p: T -> bool, m: nat) returns (k: nat)
    requires m < |Filter(s, p)|
    ensures k == Position(s, p, m) < |s| && s[k] == Filter(s, p)[m] && p(s[k])
  {
    k := Position(s, p, m);
    if p(s[0]) {
      if m > 0 {
        var j := Origin(s[1..], p, m - 1);
      }
    } else {
      var j := Origin(s[1..], p, m);
    }
  }

  lemma {:induction false} Image<T>(s: seq<T>, p: T -> bool, k: nat) returns (m: nat)
    requires k < |s| && p(s[k])
    ensures m < |Filter(s, p)| && Position(s, p, m) == k && Filter(s, p)[m] == s[k]
  {
    if k == 0 {
      m := 0;
    } else {
      m := Image(s[1..], p, k - 1);
      if p(s[0]) {
        m := m + 1;
      }
    }
  }

  /** Positions come in the order of the filtered list. */
  lemma {:induction false} Earlier<T>(s: seq<T>, p: T -> bool, j: nat, i: nat, k: nat, m: nat)
    requires i < |Filter(s, p)| && m < |Filter(s, p)| && Position(s, p, i) == j && Position(s, p, m) == k
    ensures j < k <==> i < m
    ensures j == k <==> i == m
  {
    if p(s[0]) {
      if i > 0 && m > 0 {
        Earlier(s[1..], p, j - 1, i - 1, k - 1, m - 1);
      }
    } else {
      Earlier(s[1..], p, j - 1, i, k - 1, m);
    }
  }

  /** Statement by statement, what a kept jump is known to be. */
  lemma JumpsAreSafe(body: Stmt, s: Stmt)
    requires Unique([body]) && s in JumpsIn(body)
    ensures s in InMain(body.kids) && s.semi
    ensures s.macro || !(s.kind.Return? || s.kind.Goto? || s.kind.Break? || s.kind.Continue? || s.kind.Decl?
                         || s.kind.ForStmt?)
    ensures forall t :: t in InMain(body.kids) && !t.macro
                        && (t.kind.Return? || t.kind.Goto? || t.kind.Break? || t.kind.Continue? || t.kind.Decl?
                            || t.kind.ForStmt?) ==>
              t.startLine != s.startLine && t.endLine != s.endLine
  {
    hide InMain, JumpsIn, Unique, InTest;
    JumpsAre(body, s);
  }

  /** A jump stands behind every opening brace below the body, and only there. */
  lemma {:induction false} OpensAre(forest: seq<Stmt>, at: nat)
    ensures at in Opens(forest) <==> exists s :: s in Flatten(forest) && s.kind == Compound(at)
  {
    if forest != [] {
      OpensAre(forest[0].kids, at);
      OpensAre(forest[1..], at);
      if s :| s in Flatten(forest) && s.kind == Compound(at) {
        assert s == forest[0] || s in Flatten(forest[0].kids) || s in Flatten(forest[1..]);
      }
    }
  }

  /** The jumps in the text of a function, location by location. */
  lemma EndsAre(ss: seq<Stmt>, at: nat)
    ensures at in Ends(ss) <==> exists s :: s in ss && s.at == at
  {
    if ss != [] {
      EndsAre(ss[1..], at);
      assert ss == [ss[0]] + ss[1..];
    }
  }
}
