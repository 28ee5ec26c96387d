/** The hoisting of nested declarations to the head of a function, under names that no other declaration has. */
module Hoist {
  import opened Basics
  import opened Rename

  // ----- the text of a number -----

  function Digit(d: nat): char
    requires d < 10
  {
    "0123456789"[d]
  }

  /** `std::to_string`. */
  function Decimal(n: nat): string {
    if n < 10 then [Digit(n)] else Decimal(n / 10) + [Digit(n % 10)]
  }

  predicate IsDigit(c: char) {
    '0' <= c <= '9'
  }

  lemma {:induction false} DecimalIsDigits(n: nat)
    ensures Decimal(n) != "" && forall i :: 0 <= i < |Decimal(n)| ==> IsDigit(Decimal(n)[i])
  {
    if n >= 10 {
      DecimalIsDigits(n / 10);
    }
  }

  lemma DigitInjective(d: nat, e: nat)
    requires d < 10 && e < 10 && Digit(d) == Digit(e)
    ensures d == e
  {
  }

  lemma {:induction false} DecimalInjective(n: nat, m: nat)
    requires Decimal(n) == Decimal(m)
    ensures n == m
  {
    var a, b := Decimal(n), Decimal(m);
    if n >= 10 {
      DecimalIsDigits(n / 10);
    }
    if m >= 10 {
      DecimalIsDigits(m / 10);
    }
    assert a[|a|-1] == Digit(n % 10) && b[|b|-1] == Digit(m % 10);
    DigitInjective(n % 10, m % 10);
    if n >= 10 {
      assert a[..|a|-1] == Decimal(n / 10) && b[..|b|-1] == Decimal(m / 10);
      DecimalInjective(n / 10, m / 10);
    }
  }

  // ----- generated names -----

  function Generated(name: string, n: nat): string {
    name + "_hecaton_" + Decimal(n)
  }

  /** A generated name tells the name it was made from and its number. */
  lemma GeneratedInjective(x: string, n: nat, y: string, m: nat)
    requires Generated(x, n) == Generated(y, m)
    ensures x == y && n == m
  {
    var a, b, g := Decimal(n), Decimal(m), Generated(x, n);
    DecimalIsDigits(n);
    DecimalIsDigits(m);
    var px, py := x + "_hecaton_", y + "_hecaton_";
    assert px[|px|-1] == '_' && py[|py|-1] == '_';
    assert g == px + a && g == py + b;
    assert forall i :: 0 <= i < |a| ==> g[|px| + i] == a[i];
    assert forall i :: 0 <= i < |b| ==> g[|py| + i] == b[i];
    assert g[|px| - 1] == '_' && g[|py| - 1] == '_';
    assert |a| == |b|;
    assert g[|px|..] == a && g[|py|..] == b && g[..|px|] == px && g[..|py|] == py;
    assert px[..|x|] == x && py[..|y|] == y;
    DecimalInjective(n, m);
  }

  lemma GeneratedIsWord(name: string, n: nat)
    requires IsWord(name)
    ensures IsWord(Generated(name, n)) && Generated(name, n) != name
  {
    DecimalIsDigits(n);
    assert IsWord("_hecaton_");
  }

  // ----- the visit -----

  /** A statement as the visits see it. `names` are those that a declaration statement declares; `brace` tells that its
      text has an opening brace; `visible`, that it can be rewritten and stands in the main file. */
  datatype Node = Node(names: Option<seq<string>>, brace: bool, visible: bool, kids: seq<Node>)

  /** A hoisted variable; `oldName` is empty when it keeps its name. */
  datatype Variable = Variable(name: string, oldName: string)

  function TopNames(kids: seq<Node>): seq<string> {
    if kids == [] then []
    else (if kids[0].visible && kids[0].names.Some? then kids[0].names.value else []) + TopNames(kids[1..])
  }

  /** The names of the declarations below the top level, in the order they are visited. A declaration with an opening
      brace is left where it is, and nothing inside it is visited. */
  function NestedNames(kids: seq<Node>, depth: nat): seq<string> {
    if kids == [] then []
    else
      var kid := kids[0];
      (if !kid.visible || (kid.names.Some? && depth > 1 && kid.brace) then []
       else (if kid.names.Some? && depth > 1 then kid.names.value else []) + NestedNames(kid.kids, depth + 1))
      + NestedNames(kids[1..], depth)
  }

  /** A statement of the list and, from each on to the next, one of its children. */
  predicate Descent(kids: seq<Node>, chain: seq<Node>) {
    chain != [] && chain[0] in kids && (|chain| > 1 ==> Descent(chain[0].kids, chain[1..]))
  }

  /** The declaration at the end is met at `depth` and is hoisted: everything on the way can be rewritten in the
      main file, and no declaration below the top level on the way, nor the last one, has an opening brace. */
  predicate Hoists(chain: seq<Node>, depth: nat, name: string) {
    && chain != [] && depth + |chain| > 2
    && chain[|chain|-1].names.Some? && name in chain[|chain|-1].names.value
    && forall i :: 0 <= i < |chain| ==>
         chain[i].visible && !(chain[i].names.Some? && depth + i > 1 && chain[i].brace)
  }

  lemma HoistsOn(chain: seq<Node>, depth: nat, name: string)
    requires |chain| > 1
    ensures Hoists(chain, depth, name) <==>
            Hoists(chain[1..], depth + 1, name)
            && chain[0].visible && !(chain[0].names.Some? && depth > 1 && chain[0].brace)
  {
    var rest := chain[1..];
    assert rest[|rest|-1] == chain[|chain|-1];
    assert forall i :: 0 <= i < |rest| ==> rest[i] == chain[i + 1];
    assert forall i :: 0 < i < |chain| ==> chain[i] == rest[i - 1];
  }

  lemma DescentSplits(kids: seq<Node>, chain: seq<Node>)
    requires kids != []
    ensures Descent(kids, chain) <==> Descent([kids[0]], chain) || Descent(kids[1..], chain)
  {
    assert kids == [kids[0]] + kids[1..];
  }

  /** The names hoisted are exactly those of such declarations: below the top level, without an opening brace, and
      inside nothing that is passed over. */
  lemma {:induction false} NestedNamesAre(kids: seq<Node>, depth: nat, name: string)
    ensures name in NestedNames(kids, depth) <==> exists chain :: Descent(kids, chain) && Hoists(chain, depth, name)
    decreases kids
  {
    if kids == [] {
      assert forall chain :: !Descent(kids, chain);
    } else {
      hide Hoists, Descent;
      var kid := kids[0];
      NestedNamesAre(kids[1..], depth, name);
      NamesOfOne(kid, depth, name);
      forall chain ensures Descent(kids, chain) <==> Descent([kid], chain) || Descent(kids[1..], chain) {
        DescentSplits(kids, chain);
      }
      if name in NestedNames(kids, depth) {
        if chain :| Descent([kid], chain) && Hoists(chain, depth, name) {
          assert Descent(kids, chain);
        } else {
          var chain :| Descent(kids[1..], chain) && Hoists(chain, depth, name);
          assert Descent(kids, chain);
        }
      }
      if chain :| Descent(kids, chain) && Hoists(chain, depth, name) {
        assert Descent([kid], chain) || Descent(kids[1..], chain);
      }
    }
  }

  lemma {:induction false} NamesOfOne(kid: Node, depth: nat, name: string)
    ensures (if !kid.visible || (kid.names.Some? && depth > 1 && kid.brace) then false
             else (kid.names.Some? && depth > 1 && name in kid.names.value)
                  || name in NestedNames(kid.kids, depth + 1))
            <==> exists chain :: Descent([kid], chain) && Hoists(chain, depth, name)
    decreases kid
  {
    hide NestedNames, Descent, Hoists;
    NestedNamesAre(kid.kids, depth + 1, name);
    OneLink(kid, depth, name);
    if kid.visible && !(kid.names.Some? && depth > 1 && kid.brace) && name in NestedNames(kid.kids, depth + 1) {
      var chain :| Descent(kid.kids, chain) && Hoists(chain, depth + 1, name);
      LongerDescent(kid, chain, depth, name);
    }
    if chain :| Descent([kid], chain) && Hoists(chain, depth, name) {
      ShorterDescent(kid, chain, depth, name);
    }
  }

  lemma OneLink(kid: Node, depth: nat, name: string)
    ensures Descent([kid], [kid])
    ensures Hoists([kid], depth, name) <==>
            kid.visible && kid.names.Some? && depth > 1 && !kid.brace && name in kid.names.value
  {
  }

  lemma LongerDescent(kid: Node, chain: seq<Node>, depth: nat, name: string)
    requires Descent(kid.kids, chain) && Hoists(chain, depth + 1, name)
    requires kid.visible && !(kid.names.Some? && depth > 1 && kid.brace)
    ensures Descent([kid], [kid] + chain) && Hoists([kid] + chain, depth, name)
  {
    var longer := [kid] + chain;
    assert longer[1..] == chain;
    HoistsOn(longer, depth, name);
  }

  lemma ShorterDescent(kid: Node, chain: seq<Node>, depth: nat, name: string)
    requires Descent([kid], chain) && Hoists(chain, depth, name)
    ensures kid.visible && !(kid.names.Some? && depth > 1 && kid.brace)
    ensures if |chain| == 1 then chain == [kid]
            else |chain| > 1 && Descent(kid.kids, chain[1..]) && Hoists(chain[1..], depth + 1, name)
  {
    assert chain[0] == kid;
    if |chain| > 1 {
      HoistsOn(chain, depth, name);
    }
  }

  lemma {:induction false} TopNamesAre(kids: seq<Node>, name: string)
    ensures name in TopNames(kids) <==>
            exists kid :: kid in kids && kid.visible && kid.names.Some? && name in kid.names.value
  {
    if kids != [] {
      TopNamesAre(kids[1..], name);
      assert kids == [kids[0]] + kids[1..];
      if kid :| kid in kids && kid.visible && kid.names.Some? && name in kid.names.value {
        assert kid == kids[0] || kid in kids[1..];
      }
    }
  }

  function NamesOf(vars: seq<Variable>): seq<string> {
    seq(|vars|, i requires 0 <= i < |vars| => vars[i].name)
  }

  predicate Taken(top: seq<string>, vars: seq<Variable>, name: string) {
    name in top || exists i :: 0 <= i < |vars| && vars[i].name == name
  }

  /** The variables and the next number after some more names have been hoisted. */
  function Hoisted(top: seq<string>, vars: seq<Variable>, suffix: nat, names: seq<string>): (seq<Variable>, nat)
    decreases names
  {
    if names == [] then (vars, suffix)
    else if Taken(top, vars, names[0]) then
      Hoisted(top, vars + [Variable(Generated(names[0], suffix), names[0])], suffix + 1, names[1..])
    else Hoisted(top, vars + [Variable(names[0], "")], suffix, names[1..])
  }

  lemma {:induction false} HoistedAppend(top: seq<string>, vars: seq<Variable>, suffix: nat, a: seq<string>,
          b: seq<string>)
    ensures var (vars', suffix') := Hoisted(top, vars, suffix, a);
            Hoisted(top, vars, suffix, a + b) == Hoisted(top, vars', suffix', b)
    decreases a
  {
    hide Taken, Generated;
    if a == [] {
      assert a + b == b;
    } else {
      assert (a + b)[1..] == a[1..] + b;
      if Taken(top, vars, a[0]) {
        HoistedAppend(top, vars + [Variable(Generated(a[0], suffix), a[0])], suffix + 1, a[1..], b);
      } else {
        HoistedAppend(top, vars + [Variable(a[0], "")], suffix, a[1..], b);
      }
    }
  }

  class Hoister {
    var fncDecls: seq<string>
    var varDecls: seq<Variable>
    var varSuffix: nat

    constructor ()
      ensures fncDecls == [] && varDecls == [] && varSuffix == 1
    {
      fncDecls, varDecls, varSuffix := [], [], 1;
    }

    method FncDeclVisit(body: Node)
      modifies this`fncDecls
      ensures fncDecls == old(fncDecls) + TopNames(body.kids)
    {
      for i := 0 to |body.kids|
        invariant fncDecls + TopNames(body.kids[i..]) == old(fncDecls) + TopNames(body.kids)
      {
        var kid := body.kids[i];
        assert body.kids[i..][1..] == body.kids[i + 1..];
        if kid.visible && kid.names.Some? {
          fncDecls := fncDecls + kid.names.value;
        }
      }
    }

    method IsDuplicate(name: string) returns (found: bool)
      ensures found <==> Taken(fncDecls, varDecls, name)
    {
      found := false;
      for i := 0 to |fncDecls|
        invariant !found && forall j :: 0 <= j < i ==> fncDecls[j] != name
      {
        if fncDecls[i] == name {
          found := true;
          break;
        }
      }
      for i := 0 to |varDecls|
        invariant found <==> name in fncDecls
        invariant forall j :: 0 <= j < i ==> varDecls[j].name != name
      {
        if varDecls[i].name == name {
          found := true;
          break;
        }
      }
    }

    method HoistNames(names: seq<string>)
      modifies this`varDecls, this`varSuffix
      ensures (varDecls, varSuffix) == Hoisted(fncDecls, old(varDecls), old(varSuffix), names)
    {
      hide Taken, Generated;
      for i := 0 to |names|
        invariant Hoisted(fncDecls, varDecls, varSuffix, names[i..])
               == Hoisted(fncDecls, old(varDecls), old(varSuffix), names)
      {
        assert names[i..][1..] == names[i + 1..];
        var found := IsDuplicate(names[i]);
        if found {
          varDecls := varDecls + [Variable(Generated(names[i], varSuffix), names[i])];
          varSuffix := varSuffix + 1;
        } else {
          varDecls := varDecls + [Variable(names[i], "")];
        }
      }
    }

    method VarDeclVisit(stmt: Node, depth0: nat)
      modifies this`varDecls, this`varSuffix
      ensures (varDecls, varSuffix)
              == Hoisted(fncDecls, old(varDecls), old(varSuffix), NestedNames(stmt.kids, depth0 + 1))
      decreases stmt
    {
      hide Hoisted;
      var depth := depth0 + 1;
      for i := 0 to |stmt.kids|
        invariant Hoisted(fncDecls, varDecls, varSuffix, NestedNames(stmt.kids[i..], depth))
               == Hoisted(fncDecls, old(varDecls), old(varSuffix), NestedNames(stmt.kids, depth))
      {
        var kid := stmt.kids[i];
        ghost var rest := NestedNames(stmt.kids[i + 1..], depth);
        assert stmt.kids[i..][1..] == stmt.kids[i + 1..];
        if !kid.visible {
          assert [] + rest == rest;
          continue;
        }
        ghost var own := if kid.names.Some? && depth > 1 then kid.names.value else [];
        if kid.names.Some? && depth > 1 {
          if kid.brace {
            assert [] + rest == rest;
            continue;
          }
          HoistedAppend(fncDecls, varDecls, varSuffix, own + NestedNames(kid.kids, depth + 1), rest);
          HoistedAppend(fncDecls, varDecls, varSuffix, own, NestedNames(kid.kids, depth + 1));
          HoistNames(kid.names.value);
        } else {
          HoistedAppend(fncDecls, varDecls, varSuffix, own + NestedNames(kid.kids, depth + 1), rest);
          assert own + NestedNames(kid.kids, depth + 1) == NestedNames(kid.kids, depth + 1);
        }
        VarDeclVisit(kid, depth);
      }
      assert stmt.kids[|stmt.kids|..] == [];
      HoistedNothing(fncDecls, varDecls, varSuffix);
    }

    method MoveVarDecl(body: Node)
      requires varSuffix == 1
      modifies this
      ensures fncDecls == TopNames(body.kids)
      ensures (varDecls, varSuffix) == Hoisted(fncDecls, [], 1, NestedNames(body.kids, 1))
    {
      fncDecls := [];
      FncDeclVisit(body);
      varDecls := [];
      VarDeclVisit(body, 0);
    }
  }

  lemma HoistedNothing(top: seq<string>, vars: seq<Variable>, suffix: nat)
    ensures Hoisted(top, vars, suffix, []) == (vars, suffix)
  {
  }

  // ----- every name once -----

  predicate DistinctNames(names: seq<string>) {
    forall i, j :: 0 <= i < j < |names| ==> names[i] != names[j]
  }

  /** The name is one that hoisting the nested names could generate. */
  predicate MayBeGenerated(nested: seq<string>, name: string) {
    exists i, n :: 0 <= i < |nested| && 1 <= n <= |nested| && name == Generated(nested[i], n)
  }

  /** Whenever a name is generated, no declaration before it has that name. The source does not look. */
  predicate Unclashed(top: seq<string>, vars: seq<Variable>, suffix: nat, names: seq<string>)
    decreases names
  {
    if names == [] then true
    else if Taken(top, vars, names[0]) then
      && !Taken(top, vars, Generated(names[0], suffix))
      && Unclashed(top, vars + [Variable(Generated(names[0], suffix), names[0])], suffix + 1, names[1..])
    else Unclashed(top, vars + [Variable(names[0], "")], suffix, names[1..])
  }

  lemma NamesSnoc(vars: seq<Variable>, v: Variable)
    ensures NamesOf(vars + [v]) == NamesOf(vars) + [v.name]
  {
  }

  lemma DistinctSnoc(top: seq<string>, vars: seq<Variable>, v: Variable)
    ensures DistinctNames(top + NamesOf(vars + [v]))
            <==> DistinctNames(top + NamesOf(vars)) && !Taken(top, vars, v.name)
  {
    var old_, new_ := top + NamesOf(vars), top + NamesOf(vars + [v]);
    NamesSnoc(vars, v);
    assert new_ == old_ + [v.name];
    assert Taken(top, vars, v.name) <==> v.name in old_ by {
      assert forall i :: 0 <= i < |vars| ==> old_[|top| + i] == vars[i].name;
    }
    if DistinctNames(new_) {
      assert forall i :: 0 <= i < |old_| ==> new_[i] == old_[i];
      assert forall i :: 0 <= i < |old_| ==> new_[i] != new_[|old_|];
    }
  }

  /** All declared names of a function end up pairwise distinct exactly when the top-level ones were and no generated
      name meets a name declared before. */
  lemma {:induction false} DistinctExactly(top: seq<string>, vars: seq<Variable>, suffix: nat, names: seq<string>)
    ensures DistinctNames(top + NamesOf(Hoisted(top, vars, suffix, names).0))
            <==> DistinctNames(top + NamesOf(vars)) && Unclashed(top, vars, suffix, names)
    decreases names
  {
    hide Taken, Generated, DistinctNames, NamesOf;
    if names != [] {
      var v :=
        if Taken(top, vars, names[0]) then Variable(Generated(names[0], suffix), names[0]) else Variable(names[0], "");
      DistinctSnoc(top, vars, v);
      DistinctExactly(top, vars + [v], if Taken(top, vars, names[0]) then suffix + 1 else suffix, names[1..]);
    }
  }

  predicate NoneGenerated(nested: seq<string>, names: seq<string>) {
    forall i :: 0 <= i < |names| ==> names[i] != "" && !MayBeGenerated(nested, names[i])
  }

  /** The hoisted variables so far: each has a name that cannot be generated, or a generated one with a number below the
      next. */
  ghost predicate Tidy(nested: seq<string>, vars: seq<Variable>, suffix: nat) {
    forall i :: 0 <= i < |vars| ==>
      if vars[i].oldName == "" then !MayBeGenerated(nested, vars[i].name) else Numbered(vars[i].name, suffix)
  }

  ghost predicate Numbered(name: string, below: nat) {
    exists x: string, n: nat :: n < below && name == Generated(x, n)
  }

  lemma FreshNumber(nested: seq<string>, top: seq<string>, vars: seq<Variable>, suffix: nat, name: string)
    requires Tidy(nested, vars, suffix) && NoneGenerated(nested, top)
    requires name in nested && 1 <= suffix <= |nested|
    ensures !Taken(top, vars, Generated(name, suffix))
  {
    var g := Generated(name, suffix);
    var j :| 0 <= j < |nested| && nested[j] == name;
    assert MayBeGenerated(nested, g) by { assert g == Generated(nested[j], suffix); }
    hide MayBeGenerated;
    forall i | 0 <= i < |vars| ensures vars[i].name != g {
      if vars[i].name == g {
        assert Numbered(g, suffix);
        var x: string, n: nat :| n < suffix && g == Generated(x, n);
        GeneratedInjective(name, suffix, x, n);
      }
    }
  }

  lemma TidyMore(nested: seq<string>, vars: seq<Variable>, suffix: nat, name: string)
    requires Tidy(nested, vars, suffix) && name != ""
    ensures Tidy(nested, vars + [Variable(Generated(name, suffix), name)], suffix + 1)
    ensures !MayBeGenerated(nested, name) ==> Tidy(nested, vars + [Variable(name, "")], suffix)
  {
    hide Generated, MayBeGenerated;
    assert Numbered(Generated(name, suffix), suffix + 1);
    forall i | 0 <= i < |vars| && vars[i].oldName != "" ensures Numbered(vars[i].name, suffix + 1) {
      var x: string, n: nat :| n < suffix && vars[i].name == Generated(x, n);
      assert n < suffix + 1;
    }
  }

  lemma {:induction false} SourceNamesDoNotClash(nested: seq<string>, top: seq<string>, vars: seq<Variable>,
          suffix: nat, names: seq<string>)
    requires Tidy(nested, vars, suffix) && 1 <= suffix && suffix + |names| <= |nested| + 1
    requires NoneGenerated(nested, top) && NoneGenerated(nested, names)
    requires forall i :: 0 <= i < |names| ==> names[i] in nested
    ensures Unclashed(top, vars, suffix, names)
    decreases names
  {
    hide Taken, Generated, MayBeGenerated, Tidy;
    if names != [] {
      TidyMore(nested, vars, suffix, names[0]);
      if Taken(top, vars, names[0]) {
        FreshNumber(nested, top, vars, suffix, names[0]);
        var v := Variable(Generated(names[0], suffix), names[0]);
        SourceNamesDoNotClash(nested, top, vars + [v], suffix + 1, names[1..]);
      } else {
        SourceNamesDoNotClash(nested, top, vars + [Variable(names[0], "")], suffix, names[1..]);
      }
    }
  }

  /** Fresh names. For every tree of declarations whose top-level names are distinct and none of whose names could be
      generated from a nested one, all names declared in the function after the hoisting are pairwise distinct. The
      condition is on the names of the source alone. */
  lemma HoistedNamesAreDistinct(body: Node)
    requires DistinctNames(TopNames(body.kids))
    requires NoneGenerated(NestedNames(body.kids, 1), TopNames(body.kids))
    requires NoneGenerated(NestedNames(body.kids, 1), NestedNames(body.kids, 1))
    ensures var top := TopNames(body.kids);
            DistinctNames(top + NamesOf(Hoisted(top, [], 1, NestedNames(body.kids, 1)).0))
  {
    hide MayBeGenerated, TopNames, NestedNames, Hoisted;
    var top, names := TopNames(body.kids), NestedNames(body.kids, 1);
    SourceNamesDoNotClash(names, top, [], 1, names);
    DistinctExactly(top, [], 1, names);
    assert top + NamesOf([]) == top;
  }

  /** A source name of the generated form is met by a generated one: two declarations of `a_hecaton_1` come out. */
  lemma GeneratedNamesCanClash()
    ensures var top := ["a", "a_hecaton_1"];
            DistinctNames(top) && !DistinctNames(top + NamesOf(Hoisted(top, [], 1, ["a"]).0))
  {
    var top := ["a", "a_hecaton_1"];
    assert Decimal(1) == "1";
    assert Generated("a", 1) == "a_hecaton_1";
    assert Taken(top, [], "a") && Taken(top, [], "a_hecaton_1");
    assert top[0] != top[1] by { assert |top[0]| != |top[1]|; }
    assert ["a"][0] == "a";
    DistinctExactly(top, [], 1, ["a"]);
  }

  /** Variable number i, when those before it have been hoisted. */
  ghost predicate HoistedAs(top: seq<string>, before: seq<Variable>, v: Variable, name: string, suffix: nat) {
    if Taken(top, before, name) then v.oldName == name && v.name == Generated(name, suffix) else v == Variable(name, "")
  }

  /** How many of the variables were renamed. */
  function Renamings(vars: seq<Variable>): nat {
    if vars == [] then 0 else (if vars[0].oldName == "" then 0 else 1) + Renamings(vars[1..])
  }

  /** Every nested declaration is hoisted, in the order of the source: under its own name exactly when no declaration
      before it has that name, and otherwise under its name with the next number. */
  lemma {:induction false} EachIsHoisted(top: seq<string>, vars: seq<Variable>, suffix: nat, names: seq<string>, i: nat)
    requires forall k :: 0 <= k < |names| ==> names[k] != ""
    requires i < |names|
    ensures var r := Hoisted(top, vars, suffix, names).0;
            && |r| == |vars| + |names| && r[..|vars|] == vars
            && HoistedAs(top, r[..|vars| + i], r[|vars| + i], names[i], suffix + Renamings(r[|vars|..|vars| + i]))
    decreases names
  {
    hide Taken, Generated;
    var taken := Taken(top, vars, names[0]);
    var v := if taken then Variable(Generated(names[0], suffix), names[0]) else Variable(names[0], "");
    var suffix' := if taken then suffix + 1 else suffix;
    var r := Hoisted(top, vars, suffix, names).0;
    assert r == Hoisted(top, vars + [v], suffix', names[1..]).0;
    assert (vars + [v])[..|vars|] == vars;
    if |names| == 1 {
      assert names[1..] == [];
      assert r == vars + [v] && r[..|vars|] == vars;
    } else {
      EachIsHoisted(top, vars + [v], suffix', names[1..], if i == 0 then 0 else i - 1);
      assert r[|vars|] == r[..|vars| + 1][|vars|] == v;
      assert r[..|vars|] == r[..|vars| + 1][..|vars|];
      if i > 0 {
        assert r[|vars|..|vars| + i] == [v] + r[|vars| + 1..|vars| + i];
      }
    }
  }

  lemma {:induction false} HoistedNamesAreWords(top: seq<string>, vars: seq<Variable>, suffix: nat, names: seq<string>)
    requires forall i :: 0 <= i < |names| ==> IsWord(names[i])
    requires forall i :: 0 <= i < |vars| ==> IsWord(vars[i].name) && Renameable(vars[i])
    ensures var r := Hoisted(top, vars, suffix, names).0;
            forall i :: 0 <= i < |r| ==> IsWord(r[i].name) && Renameable(r[i])
    decreases names
  {
    hide IsWord, Taken, Generated;
    if names != [] {
      GeneratedIsWord(names[0], suffix);
      var taken := Taken(top, vars, names[0]);
      var v := if taken then Variable(Generated(names[0], suffix), names[0]) else Variable(names[0], "");
      var suffix' := if taken then suffix + 1 else suffix;
      assert Hoisted(top, vars, suffix, names) == Hoisted(top, vars + [v], suffix', names[1..]);
      HoistedNamesAreWords(top, vars + [v], suffix', names[1..]);
    }
  }

  /** A renamed variable has two names that the renaming of the text can work with. */
  predicate Renameable(v: Variable) {
    v.oldName != "" ==> IsWord(v.oldName) && IsWord(v.name) && v.name != v.oldName
  }

  /** In a line that does not use the new name yet, renaming a hoisted variable can be taken back, and is settled after
      one pass: no other variable is captured. */
  lemma RenamingCapturesNothing(body: Node, i: nat, line: string, stray: int -> char)
    requires forall k :: 0 <= k < |NestedNames(body.kids, 1)| ==> IsWord(NestedNames(body.kids, 1)[k])
    requires var vars := Hoisted(TopNames(body.kids), [], 1, NestedNames(body.kids, 1)).0;
             i < |vars| && vars[i].oldName != "" && Word(vars[i].name) !in Tokens(line)
    ensures var v := Hoisted(TopNames(body.kids), [], 1, NestedNames(body.kids, 1)).0[i];
            var once := Renamed("", line, v.oldName, v.name, stray);
            && Renamed("", once, v.name, v.oldName, stray) == line
            && Renamed("", once, v.oldName, v.name, stray) == once
  {
    hide Hoisted, Renamed, Tokens, NestedNames, TopNames, IsWord;
    HoistedNamesAreWords(TopNames(body.kids), [], 1, NestedNames(body.kids, 1));
    var v := Hoisted(TopNames(body.kids), [], 1, NestedNames(body.kids, 1)).0[i];
    RenameBack("", "", line, v.oldName, v.name, stray);
    RenameAgain("", line, v.oldName, v.name, stray);
  }
}
