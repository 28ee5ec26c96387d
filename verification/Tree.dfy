/** The statement tree of a C function, and the search for the statement around a statement. */
module Tree {
  import opened Basics

  datatype Kind =
    | Compound(open: nat)  // open: the location behind the opening brace
    | IfStmt(cond: string)
    | ForStmt(cond: string)
    | WhileStmt(cond: string)
    | Return(variable: Option<string>)  // the variable of `return v;`
    | Goto(target: nat)  // the statement carrying the label
    | Labelled
    | Break
    | Continue
    | Decl
    | Call(fn: string, args: seq<string>, params: seq<string>)  // a call whose callee is known
    | IndirectCall
    | Assign(lhs: string, rhs: string, negated: Option<string>)  // negated: v when the statement reads `v = -<literal>`
    | Update  // another assignment operator
    | Unary
    | Other

  /** `text` is the pretty-printed statement, `source` its text in the file. `at` is the location behind the
      statement, where text is inserted; `macro` tells that it begins inside a macro expansion, `semi` that a semicolon
      in text that can be rewritten ends it, `foreign` that it ends outside the main file. */
  datatype Stmt = Stmt(id: nat, kind: Kind, text: string, source: string, macro: bool, semi: bool,
                       begin: nat, at: nat, startLine: nat, endLine: nat, foreign: bool, kids: seq<Stmt>)

  /** The statements of a forest in traversal order. */
  function Flatten(forest: seq<Stmt>): seq<Stmt> {
    if forest == [] then [] else [forest[0]] + Flatten(forest[0].kids) + Flatten(forest[1..])
  }

  /** Everything strictly inside s, in traversal order. */
  function Below(s: Stmt): seq<Stmt> {
    Flatten(s.kids)
  }

  /** The statements of a forest without those that end outside the main file, and without what is inside those. */
  function InMain(forest: seq<Stmt>): seq<Stmt> {
    if forest == [] then []
    else (if forest[0].foreign then [] else [forest[0]] + InMain(forest[0].kids)) + InMain(forest[1..])
  }

  function Ids(forest: seq<Stmt>): set<nat> {
    if forest == [] then {} else {forest[0].id} + Ids(forest[0].kids) + Ids(forest[1..])
  }

  /** No two statements of the forest are the same one. */
  predicate Unique(forest: seq<Stmt>) {
    forest != [] ==>
      && forest[0].id !in Ids(forest[0].kids)
      && ({forest[0].id} + Ids(forest[0].kids)) !! Ids(forest[1..])
      && Unique(forest[0].kids) && Unique(forest[1..])
  }

  /** The statements from a root of the forest down to the statement `id`; empty when it is not there. */
  function Path(forest: seq<Stmt>, id: nat): seq<Stmt> {
    if forest == [] then []
    else if forest[0].id == id then [forest[0]]
    else
      var inside := Path(forest[0].kids, id);
      if inside != [] then [forest[0]] + inside else Path(forest[1..], id)
  }

  lemma {:induction false} PathFinds(forest: seq<Stmt>, id: nat)
    ensures Path(forest, id) != [] <==> id in Ids(forest)
    ensures Path(forest, id) != [] ==> Path(forest, id)[|Path(forest, id)|-1].id == id
    ensures forall s :: s in Path(forest, id) ==> s.id in Ids(forest)
  {
    if forest != [] {
      PathFinds(forest[0].kids, id);
      PathFinds(forest[1..], id);
    }
  }

  /** Each statement on the path is the child of the one before it. */
  lemma {:induction false} PathIsALine(forest: seq<Stmt>, id: nat, i: nat)
    requires i < |Path(forest, id)|
    ensures i == 0 ==> Path(forest, id)[0] in forest
    ensures i > 0 ==> Path(forest, id)[i] in Path(forest, id)[i - 1].kids
  {
    if forest[0].id != id {
      var inside := Path(forest[0].kids, id);
      if inside == [] {
        PathIsALine(forest[1..], id, i);
        assert forest == [forest[0]] + forest[1..];
      } else if i > 0 {
        PathIsALine(forest[0].kids, id, i - 1);
      }
    }
  }

  /** Where statements are unique, the path to a statement on the path is the beginning of that path. */
  lemma {:induction false} PathPrefix(forest: seq<Stmt>, id: nat, i: nat)
    requires Unique(forest) && i < |Path(forest, id)|
    ensures Path(forest, Path(forest, id)[i].id) == Path(forest, id)[..i + 1]
  {
    var p := Path(forest, id);
    if forest[0].id == id {
      assert p[..1] == p;
    } else {
      var inside := Path(forest[0].kids, id);
      if inside == [] {
        PathFinds(forest[1..], id);
        PathPrefix(forest[1..], id, i);
        PathFinds(forest[0].kids, p[i].id);
      } else if i > 0 {
        PathFinds(forest[0].kids, id);
        PathPrefix(forest[0].kids, id, i - 1);
        assert p[..i + 1] == [forest[0]] + inside[..i];
      } else {
        assert p[..1] == [forest[0]];
      }
    }
  }

  lemma {:induction false} FlattenIds(forest: seq<Stmt>, s: Stmt)
    requires s in Flatten(forest)
    ensures s.id in Ids(forest) && Ids(s.kids) <= Ids(forest)
  {
    if s != forest[0] {
      if s in Flatten(forest[0].kids) {
        FlattenIds(forest[0].kids, s);
      } else {
        FlattenIds(forest[1..], s);
      }
    }
  }

  lemma {:induction false} PathToRoot(forest: seq<Stmt>, s: Stmt)
    requires Unique(forest) && s in forest
    ensures Path(forest, s.id) == [s] && s.id in Ids(forest)
  {
    if s != forest[0] {
      assert forest == [forest[0]] + forest[1..];
      PathToRoot(forest[1..], s);
      PathFinds(forest[0].kids, s.id);
    }
  }

  lemma {:induction false} PathInside(forest: seq<Stmt>, id: nat, s: Stmt)
    requires s in Path(forest, id)
    ensures s in Flatten(forest)
  {
    if forest[0].id != id {
      var inside := Path(forest[0].kids, id);
      if inside == [] {
        PathInside(forest[1..], id, s);
      } else if s in inside {
        PathInside(forest[0].kids, id, s);
      }
    }
  }

  lemma {:induction false} KidsAreUnique(forest: seq<Stmt>, s: Stmt)
    requires Unique(forest) && s in Flatten(forest)
    ensures Unique(s.kids)
  {
    if s != forest[0] {
      if s in Flatten(forest[0].kids) {
        KidsAreUnique(forest[0].kids, s);
      } else {
        KidsAreUnique(forest[1..], s);
      }
    }
  }

  lemma {:induction false} RootsDiffer(forest: seq<Stmt>)
    requires Unique(forest)
    ensures forall i, j :: 0 <= i < j < |forest| ==> forest[i].id != forest[j].id
  {
    if forest != [] {
      RootsDiffer(forest[1..]);
      forall j | 0 < j < |forest| ensures forest[0].id != forest[j].id {
        RootInside(forest[1..], j - 1);
        FlattenIds(forest[1..], forest[j]);
      }
    }
  }

  lemma {:induction false} RootInside(forest: seq<Stmt>, i: nat)
    requires i < |forest|
    ensures forest[i] in Flatten(forest)
  {
    if i > 0 {
      RootInside(forest[1..], i - 1);
    }
  }

  lemma {:induction false} KidsInside(forest: seq<Stmt>, s: Stmt, t: Stmt)
    requires s in Flatten(forest) && t in Flatten(s.kids)
    ensures t in Flatten(forest)
  {
    if s != forest[0] {
      if s in Flatten(forest[0].kids) {
        KidsInside(forest[0].kids, s, t);
      } else {
        KidsInside(forest[1..], s, t);
      }
    }
  }

  /** The last but one statement of a path. */
  function ParentOn(path: seq<Stmt>): Option<Stmt> {
    if |path| >= 2 then Some(path[|path|-2]) else None
  }

  /** Where statements are unique, a path ends with a statement and, before it, the one statement it is a child of. */
  lemma {:induction false} ParentIsTheParent(forest: seq<Stmt>, parent: Stmt, s: Stmt)
    requires Unique(forest) && parent in Flatten(forest) && s in parent.kids
    ensures ParentOn(Path(forest, s.id)) == Some(parent)
    ensures s.id in Ids(forest)
  {
    var first := forest[0];
    if parent == first {
      PathToRoot(first.kids, s);
    } else if parent in Flatten(first.kids) {
      ParentIsTheParent(first.kids, parent, s);
    } else {
      ParentIsTheParent(forest[1..], parent, s);
      PathFinds(first.kids, s.id);
    }
  }

  method FindParentRecursive(stmt: nat, body: Stmt) returns (parent: Option<Stmt>)
    requires Unique([body])
    ensures parent == ParentOn(Path([body], stmt))
    decreases body
  {
    hide Ids;
    parent := None;
    var kids := body.kids;
    PathFinds(kids, stmt);
    assert body.id !in Ids(kids) && Unique(kids);
    for i := 0 to |kids|
      invariant parent == None && Unique(kids[i..])
      invariant Path(kids, stmt) == Path(kids[i..], stmt)
    {
      assert kids[i..][1..] == kids[i + 1..];
      if kids[i].id == stmt {
        return Some(body);
      }
      OneRoot(kids[i], kids[i..], stmt);
      parent := FindParentRecursive(stmt, kids[i]);
      if parent != None {
        return;
      }
    }
    assert kids[|kids|..] == [];
    assert [body][1..] == [];
  }

  lemma OneRoot(s: Stmt, forest: seq<Stmt>, id: nat)
    requires forest != [] && forest[0] == s && Unique(forest)
    ensures Unique([s])
    ensures Path([s], id) == if s.id == id then [s] else if Path(s.kids, id) == [] then [] else [s] + Path(s.kids, id)
  {
    assert [s][1..] == [];
  }

  predicate IsConditional(s: Stmt) {
    s.kind.IfStmt? || s.kind.ForStmt? || s.kind.WhileStmt?
  }

  /** Walking up a path: the first if, for or while before a statement that begins where the body begins. */
  function ClimbOn(path: seq<Stmt>, begin: nat): Option<Stmt> {
    if path == [] then None
    else
      var last := path[|path|-1];
      if last.begin == begin then None
      else if IsConditional(last) then Some(last)
      else ClimbOn(path[..|path|-1], begin)
  }

  method FindIfStmtGrandparentRecursive(stmt: nat, body: Stmt) returns (found: Option<Stmt>)
    requires Unique([body])
    ensures var p := Path([body], stmt); found == if p == [] then None else ClimbOn(p[..|p|-1], body.begin)
  {
    hide Path, Unique;
    ghost var p := Path([body], stmt);
    ghost var n := |p|;
    var parent := FindParentRecursive(stmt, body);
    while parent != None
      invariant 0 <= n <= |p|
      invariant p == [] ==> parent == None
      invariant p != [] ==> n >= 1 && parent == ParentOn(p[..n])
      invariant p != [] ==> ClimbOn(p[..|p|-1], body.begin) == ClimbOn(p[..n-1], body.begin)
      decreases n
    {
      var s := parent.value;
      ClimbStep(p, n, body.begin);
      if s.begin == body.begin {
        return None;
      }
      if IsConditional(s) {
        return Some(s);
      }
      PathPrefix([body], stmt, n - 2);
      parent := FindParentRecursive(s.id, body);
      n := n - 1;
    }
    found := None;
  }

  lemma ClimbStep(p: seq<Stmt>, n: nat, begin: nat)
    requires 2 <= n <= |p|
    ensures ParentOn(p[..n]) == Some(p[n - 2])
    ensures ClimbOn(p[..n - 1], begin) ==
            if p[n - 2].begin == begin then None
            else if IsConditional(p[n - 2]) then Some(p[n - 2]) else ClimbOn(p[..n - 2], begin)
  {
    assert p[..n - 1][..n - 2] == p[..n - 2];
  }

  /** With begin locations that tell the body from the statements around `stmt`, the climb finds the nearest if, for
      or while strictly between the body and the statement, and nothing exactly when there is none. */
  lemma {:induction false} ClimbFindsNearest(path: seq<Stmt>, begin: nat)
    requires path != [] && path[0].begin == begin
    requires forall i :: 0 < i < |path| ==> path[i].begin != begin
    ensures ClimbOn(path, begin) == None <==> forall i :: 0 < i < |path| ==> !IsConditional(path[i])
    ensures forall s :: ClimbOn(path, begin) == Some(s) ==>
              exists i :: 0 < i < |path| && path[i] == s && IsConditional(s)
                          && forall j :: i < j < |path| ==> !IsConditional(path[j])
  {
    if |path| > 1 {
      var up := path[..|path|-1];
      ClimbFindsNearest(up, begin);
      if !IsConditional(path[|path|-1]) {
        if ClimbOn(up, begin) == None {
          assert forall i :: 0 < i < |path| - 1 ==> path[i] == up[i];
        }
      }
    }
  }
}
