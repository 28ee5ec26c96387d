/** Where jumps to the cleanup block are placed, and the text inserted at a location. */
module Jumps {
  import opened Basics
  import opened Tree
  import opened Runtime

  // ----- inserted text -----

  /** What has been inserted at a location, in the order of insertion. */
  function Behind(edits: map<nat, seq<Item>>, at: nat): seq<Item> {
    if at in edits then edits[at] else []
  }

  function Hits(locs: seq<nat>, at: nat, item: Item): seq<Item> {
    if locs == [] then []
    else (if locs[0] == at then [item] else []) + Hits(locs[1..], at, item)
  }

  lemma {:induction false} HitsAppend(a: seq<nat>, b: seq<nat>, at: nat, item: Item)
    ensures Hits(a + b, at, item) == Hits(a, at, item) + Hits(b, at, item)
  {
    if a == [] {
      assert a + b == b;
    } else {
      var here, p, q := if a[0] == at then [item] else [], Hits(a[1..], at, item), Hits(b, at, item);
      assert (a + b)[0] == a[0] && (a + b)[1..] == a[1..] + b;
      HitsAppend(a[1..], b, at, item);
      assert Hits(a + b, at, item) == here + (p + q) == (here + p) + q;
    }
  }

  /** Between two states of the file one item was inserted at each of the given locations, in order. */
  ghost predicate Inserted(before: map<nat, seq<Item>>, after: map<nat, seq<Item>>, locs: seq<nat>, item: Item) {
    forall at: nat :: Behind(after, at) == Behind(before, at) + Hits(locs, at, item)
  }

  lemma InsertedNothing(edits: map<nat, seq<Item>>, item: Item)
    ensures Inserted(edits, edits, [], item)
  {
  }

  lemma InsertedMore(e0: map<nat, seq<Item>>, e1: map<nat, seq<Item>>, e2: map<nat, seq<Item>>,
                     a: seq<nat>, b: seq<nat>, item: Item)
    requires Inserted(e0, e1, a, item) && Inserted(e1, e2, b, item)
    ensures Inserted(e0, e2, a + b, item)
  {
    hide Behind, Hits;
    forall at: nat ensures Behind(e2, at) == Behind(e0, at) + Hits(a + b, at, item) {
      HitsAppend(a, b, at, item);
      assert Behind(e1, at) == Behind(e0, at) + Hits(a, at, item);
      assert Behind(e2, at) == Behind(e1, at) + Hits(b, at, item);
    }
  }

  /** Between two states of the file the text `more(at)` was appended at every location. */
  ghost predicate Grown(before: map<nat, seq<Item>>, after: map<nat, seq<Item>>, more: nat -> seq<Item>) {
    forall at: nat :: Behind(after, at) == Behind(before, at) + more(at)
  }

  lemma GrownMore(e0: map<nat, seq<Item>>, e1: map<nat, seq<Item>>, e2: map<nat, seq<Item>>,
                  a: nat -> seq<Item>, b: nat -> seq<Item>, c: nat -> seq<Item>)
    requires Grown(e0, e1, a) && Grown(e1, e2, b) && forall at: nat :: c(at) == a(at) + b(at)
    ensures Grown(e0, e2, c)
  {
    hide Behind;
    forall at: nat ensures Behind(e2, at) == Behind(e0, at) + c(at) {
      assert Behind(e1, at) == Behind(e0, at) + a(at);
      assert Behind(e2, at) == Behind(e1, at) + b(at);
    }
  }

  class Rewriter {
    var edits: map<nat, seq<Item>>

    constructor ()
      ensures edits == map[]
    {
      edits := map[];
    }

    /** Text inserted at the same location comes behind the text inserted there before. */
    method InsertText(at: nat, item: Item)
      modifies this
      ensures Inserted(old(edits), edits, [at], item)
    {
      edits := edits[at := Behind(edits, at) + [item]];
      assert [at][1..] == [];
    }
  }

  // ----- candidates -----

  /** The statement's text occurs in the condition of the if, for or while that is its parent. */
  predicate InParentCondition(s: Stmt, parent: Option<Stmt>) {
    parent.Some? &&
    match parent.value.kind
    case IfStmt(cond) => Contains(cond, s.source)
    case ForStmt(cond) => Contains(cond, s.source)
    case WhileStmt(cond) => Contains(cond, s.source)
    case _ => false
  }

  predicate LeavesOrDeclares(s: Stmt) {
    s.kind.Return? || s.kind.Continue? || s.kind.Break? || s.kind.Decl? || s.kind.Goto? || s.kind.ForStmt?
  }

  function Forbids(body: Stmt): Stmt -> bool {
    (s: Stmt) => !s.macro && (LeavesOrDeclares(s) || InParentCondition(s, ParentOn(Path([body], s.id))))
  }

  function IsPlace(body: Stmt): Stmt -> bool {
    (s: Stmt) => !Forbids(body)(s) && s.semi
  }

  /** Two statements share their first or their last line. */
  predicate Collide(s: Stmt, t: Stmt) {
    s.startLine == t.startLine || s.endLine == t.endLine
  }

  /** Place i survives: no place before it, kept or not, and no forbidden statement shares a line with it. */
  predicate Survives(places: seq<Stmt>, forbidden: seq<Stmt>, i: nat)
    requires i < |places|
  {
    && (forall j :: 0 <= j < i ==> !Collide(places[j], places[i]))
    && forall f :: f in forbidden ==> !Collide(f, places[i])
  }

  function Survivors(places: seq<Stmt>, forbidden: seq<Stmt>, i: nat): seq<Stmt>
    decreases |places| - i
  {
    if i >= |places| then []
    else (if Survives(places, forbidden, i) then [places[i]] else []) + Survivors(places, forbidden, i + 1)
  }

  predicate Apart(ss: seq<Stmt>) {
    forall i, j :: 0 <= i < j < |ss| ==> !Collide(ss[i], ss[j])
  }

  /** A statement keeps a jump exactly when some place of it survives. */
  lemma {:induction false} SurvivorsAre(places: seq<Stmt>, forbidden: seq<Stmt>, i: nat, s: Stmt)
    ensures s in Survivors(places, forbidden, i) <==>
            exists k :: i <= k < |places| && places[k] == s && Survives(places, forbidden, k)
    decreases |places| - i
  {
    if i < |places| {
      SurvivorsAre(places, forbidden, i + 1, s);
    }
  }

  /** No two surviving jumps share a first or a last line, and none shares one with a forbidden statement. */
  lemma {:induction false} SurvivorsAreApart(places: seq<Stmt>, forbidden: seq<Stmt>, i: nat)
    ensures Apart(Survivors(places, forbidden, i))
    ensures forall s, f :: s in Survivors(places, forbidden, i) && f in forbidden ==> !Collide(f, s)
    decreases |places| - i
  {
    if i < |places| {
      var rest := Survivors(places, forbidden, i + 1);
      SurvivorsAreApart(places, forbidden, i + 1);
      if Survives(places, forbidden, i) {
        forall k | 0 <= k < |rest| ensures !Collide(places[i], rest[k]) {
          SurvivorsAre(places, forbidden, i + 1, rest[k]);
        }
      }
    }
  }

  /** A candidate with a flag, as the marking loops keep it. */
  datatype Marked = Marked(stmt: Stmt, erase: bool)

  function Unmarked(ss: seq<Stmt>): seq<Marked> {
    seq(|ss|, i requires 0 <= i < |ss| => Marked(ss[i], false))
  }

  /** Marks what collides with s, from place `first` on. */
  method MarkCollisions(list: seq<Marked>, s: Stmt, first: nat) returns (r: seq<Marked>)
    ensures |r| == |list|
    ensures forall k :: 0 <= k < |r| ==>
              r[k] == Marked(list[k].stmt, list[k].erase || (k >= first && Collide(s, list[k].stmt)))
  {
    r := list;
    var j := first;
    while j < |r|
      invariant |r| == |list|
      invariant forall k :: 0 <= k < |r| ==>
                  r[k] == Marked(list[k].stmt, list[k].erase || (first <= k < j && Collide(s, list[k].stmt)))
    {
      if Collide(s, r[j].stmt) {
        r := r[j := r[j].(erase := true)];
      }
      j := j + 1;
    }
  }

  predicate ClashesBefore(places: seq<Stmt>, i: nat, k: nat)
    requires k < |places|
  {
    exists j :: 0 <= j < i && j < k && Collide(places[j], places[k])
  }

  predicate ClashesWith(forbidden: seq<Stmt>, f: nat, s: Stmt)
    requires f <= |forbidden|
  {
    exists g :: 0 <= g < f && Collide(forbidden[g], s)
  }

  method MarkEarlier(places: seq<Stmt>) returns (list: seq<Marked>)
    ensures |list| == |places|
    ensures forall k :: 0 <= k < |list| ==> list[k] == Marked(places[k], ClashesBefore(places, |places|, k))
  {
    list := Unmarked(places);
    for i := 0 to |list|
      invariant |list| == |places|
      invariant forall k :: 0 <= k < |list| ==> list[k] == Marked(places[k], ClashesBefore(places, i, k))
    {
      list := MarkCollisions(list, list[i].stmt, i + 1);
      forall k | 0 <= k < |places|
        ensures ClashesBefore(places, i + 1, k)
                <==> ClashesBefore(places, i, k) || (i < k && Collide(places[i], places[k]))
      {
      }
    }
  }

  method MarkForbidden(marked: seq<Marked>, forbidden: seq<Stmt>) returns (list: seq<Marked>)
    ensures |list| == |marked|
    ensures forall k :: 0 <= k < |list| ==>
              list[k] == Marked(marked[k].stmt,
                                marked[k].erase || ClashesWith(forbidden, |forbidden|, marked[k].stmt))
  {
    list := marked;
    for f := 0 to |forbidden|
      invariant |list| == |marked|
      invariant forall k :: 0 <= k < |list| ==>
                  list[k] == Marked(marked[k].stmt, marked[k].erase || ClashesWith(forbidden, f, marked[k].stmt))
    {
      list := MarkCollisions(list, forbidden[f], 0);
      forall s ensures ClashesWith(forbidden, f + 1, s) <==> ClashesWith(forbidden, f, s) || Collide(forbidden[f], s) {
      }
    }
  }

  lemma SurvivesUnmarked(places: seq<Stmt>, forbidden: seq<Stmt>, k: nat)
    requires k < |places|
    ensures Survives(places, forbidden, k) <==>
            !ClashesBefore(places, |places|, k) && !ClashesWith(forbidden, |forbidden|, places[k])
  {
    if !ClashesWith(forbidden, |forbidden|, places[k]) {
      forall f | f in forbidden ensures !Collide(f, places[k]) {
        var g :| 0 <= g < |forbidden| && forbidden[g] == f;
      }
    }
  }

  /** The two marking loops and the erasing loop over the candidate jumps. */
  method KeepJumps(places: seq<Stmt>, forbidden: seq<Stmt>) returns (kept: seq<Stmt>)
    ensures kept == Survivors(places, forbidden, 0)
  {
    var list := MarkEarlier(places);
    list := MarkForbidden(list, forbidden);
    hide ClashesBefore, ClashesWith, Survives;
    kept := [];
    for k := 0 to |list|
      invariant kept + Survivors(places, forbidden, k) == Survivors(places, forbidden, 0)
    {
      SurvivesUnmarked(places, forbidden, k);
      if !list[k].erase {
        kept := kept + [list[k].stmt];
      }
    }
  }
}
