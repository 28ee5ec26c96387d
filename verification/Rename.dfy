/** The renaming of hoisted variables: a scan over printed C text that has to find the whole identifiers. */
module Rename {
  import opened Basics
  import opened Similarity

  predicate IsAlnum(c: char) {
    '0' <= c <= '9' || 'A' <= c <= 'Z' || 'a' <= c <= 'z'
  }

  predicate IsWordChar(c: char) {
    IsAlnum(c) || c == '_'
  }

  predicate IsWord(s: string) {
    s != "" && forall i :: 0 <= i < |s| ==> IsWordChar(s[i])
  }

  // ----- the test of an occurrence -----

  function TrimRight(s: string): (t: string)
    ensures |t| <= |s| && t == s[..|t|]
    ensures t != "" ==> t[|t|-1] != ' '
    ensures forall i :: |t| <= i < |s| ==> s[i] == ' '
  {
    if s != "" && s[|s|-1] == ' ' then TrimRight(s[..|s|-1]) else s
  }

  /** c stands in front of a name, and `second` in front of c. */
  predicate AllowsName(c: char, second: char) {
    !IsWordChar(c) && c != '.' && !(c == '>' && second == '-')
  }

  /** Whether the text in front of an occurrence lets it be a variable. Spaces are skipped. What stands in memory in
      front of the line is read when the occurrence is at column 0, or comes behind a `>` at column 0. */
  predicate Free(before: string, stray: int -> char) {
    if before == "" then AllowsName(stray(-1), stray(-2))
    else
      var t := TrimRight(before);
      t == "" || AllowsName(t[|t|-1], if |t| >= 2 then t[|t|-2] else stray(-1))
  }

  /** A character of the line. The one behind its end is the terminating null. */
  function At(line: string, i: int, stray: int -> char): char {
    if 0 <= i < |line| then line[i] else if i == |line| then '\0' else stray(i)
  }

  method IsValidVariable(line: string, name: string, pos0: nat, stray: int -> char) returns (valid: bool)
    requires OccursAt(line, name, pos0)
    ensures valid <==> Free(line[..pos0], stray)
                       && (pos0 + |name| == |line| || !IsWordChar(line[pos0 + |name|]))
  {
    var pos := pos0;
    var beforeCh, afterCh := At(line, pos - 1, stray), At(line, pos + |name|, stray);
    while beforeCh == ' ' && pos > 0
      invariant 0 <= pos <= pos0 && (pos0 > 0 ==> pos > 0)
      invariant beforeCh == At(line, pos - 1, stray)
      invariant TrimRight(line[..pos]) == TrimRight(line[..pos0])
    {
      assert line[..pos][..pos - 1] == line[..pos - 1];
      pos := pos - 1;
      if pos == 0 {
        beforeCh := ';';
        break;
      }
      beforeCh := At(line, pos - 1, stray);
    }
    if IsAlnum(beforeCh) || beforeCh == '_' || beforeCh == '.' {
      return false;
    }
    if beforeCh == '>' && At(line, pos - 2, stray) == '-' {
      return false;
    }
    valid := !IsAlnum(afterCh) && afterCh != '_';
  }

  // ----- what the scan makes of a line -----

  function WordLength(s: string): (n: nat)
    ensures n <= |s| && (forall i :: 0 <= i < n ==> IsWordChar(s[i]))
    ensures n < |s| ==> !IsWordChar(s[n])
  {
    if s == "" || !IsWordChar(s[0]) then 0 else 1 + WordLength(s[1..])
  }

  /** What becomes of b when a stands in front of it, word by word. */
  function Renamed(a: string, b: string, name: string, newName: string, stray: int -> char): string
    decreases |b|
  {
    if b == "" then ""
    else if !IsWordChar(b[0]) then [b[0]] + Renamed(a + [b[0]], b[1..], name, newName, stray)
    else
      var n := WordLength(b);
      var w := if b[..n] == name && Free(a, stray) then newName else b[..n];
      w + Renamed(a + w, b[n..], name, newName, stray)
  }

  /** A whole word of the line. */
  predicate WholeAt(line: string, name: string, p: nat) {
    && OccursAt(line, name, p) && (p == 0 || !IsWordChar(line[p - 1]))
    && (p + |name| == |line| || !IsWordChar(line[p + |name|]))
  }

  /** No word is cut in two at k. */
  predicate Boundary(line: string, k: nat) {
    k <= |line| && (0 < k < |line| ==> !IsWordChar(line[k - 1]) || !IsWordChar(line[k]))
  }

  /** The line when everything before k is done. */
  function Rest(line: string, k: nat, name: string, newName: string, stray: int -> char): string
    requires k <= |line|
  {
    line[..k] + Renamed(line[..k], line[k..], name, newName, stray)
  }

  lemma StepChar(line: string, k: nat, name: string, newName: string, stray: int -> char)
    requires k < |line| && !IsWordChar(line[k])
    ensures Rest(line, k, name, newName, stray) == Rest(line, k + 1, name, newName, stray)
  {
    hide Free;
    var b := line[k..];
    assert b[0] == line[k] && b[1..] == line[k + 1..] && line[..k] + [line[k]] == line[..k + 1];
  }

  /** The word that begins at k. */
  lemma WordAt(line: string, k: nat) returns (n: nat)
    requires k < |line| && IsWordChar(line[k])
    ensures n == WordLength(line[k..]) && 0 < n && k + n <= |line|
    ensures forall i :: k <= i < k + n ==> IsWordChar(line[i])
    ensures k + n < |line| ==> !IsWordChar(line[k + n])
  {
    n := WordLength(line[k..]);
    assert line[k..][0] == line[k];
    forall i | k <= i < k + n ensures IsWordChar(line[i]) {
      assert line[i] == line[k..][i - k];
    }
  }

  lemma StepWord(line: string, k: nat, n: nat, name: string, newName: string, stray: int -> char)
    requires k < |line| && IsWordChar(line[k]) && n == WordLength(line[k..])
    ensures var w := if line[k..k + n] == name && Free(line[..k], stray) then newName else line[k..k + n];
            Rest(line, k, name, newName, stray) == Rest(line[..k] + w + line[k + n..], k + |w|, name, newName, stray)
  {
    hide Free, WordLength;
    var b := line[k..];
    assert b[0] == line[k] && b[..n] == line[k..k + n] && b[n..] == line[k + n..];
    var w := if line[k..k + n] == name && Free(line[..k], stray) then newName else line[k..k + n];
    var line' := line[..k] + w + line[k + n..];
    assert line'[..k + |w|] == line[..k] + w && line'[k + |w|..] == line[k + n..];
    var more := Renamed(line[..k] + w, b[n..], name, newName, stray);
    assert Renamed(line[..k], b, name, newName, stray) == w + more;
    assert line[..k] + (w + more) == (line[..k] + w) + more;
  }

  /** Up to the next place q where the whole name stands, or the end, nothing changes. */
  lemma {:induction false} Advance(line: string, k: nat, q: nat, name: string, newName: string, stray: int -> char)
    requires IsWord(name) && Boundary(line, k) && k <= q <= |line|
    requires forall p :: k <= p < q ==> !WholeAt(line, name, p)
    requires q == |line| || WholeAt(line, name, q)
    ensures Rest(line, k, name, newName, stray) == Rest(line, q, name, newName, stray)
    decreases q - k
  {
    hide Free, Rest, WordLength;
    if k < q {
      if !IsWordChar(line[k]) {
        StepChar(line, k, name, newName, stray);
        Advance(line, k + 1, q, name, newName, stray);
      } else {
        var n := WordAt(line, k);
        StepWord(line, k, n, name, newName, stray);
        assert line[k..k + n] == name ==> WholeAt(line, name, k);
        assert line[..k] + line[k..k + n] + line[k + n..] == line;
        assert q < |line| ==> q >= k + n;
        Advance(line, k + n, q, name, newName, stray);
      }
    }
  }

  /** At a place where the whole name stands. */
  lemma RenameHere(line: string, q: nat, name: string, newName: string, stray: int -> char)
    requires IsWord(name) && WholeAt(line, name, q)
    ensures var w := if Free(line[..q], stray) then newName else name;
            Rest(line, q, name, newName, stray)
            == Rest(line[..q] + w + line[q + |name|..], q + |w|, name, newName, stray)
  {
    hide Free, Rest, WordLength;
    assert forall i :: 0 <= i < |name| ==> line[q + i] == name[i];
    assert line[q] == name[0];
    var n := WordAt(line, q);
    assert n == |name|;
    StepWord(line, q, n, name, newName, stray);
  }

  /** Inside a word no whole name begins. */
  lemma InsideIsWord(line: string, q: nat, w: string, rest: string, name: string)
    requires IsWord(w) && q <= |line|
    ensures var l := line[..q] + w + rest; forall p: nat :: q < p < q + |w| ==> !WholeAt(l, name, p)
  {
    var l := line[..q] + w + rest;
    forall p: nat | q < p < q + |w| ensures !WholeAt(l, name, p) {
      assert l[p - 1] == w[p - 1 - q];
    }
  }

  /** The scan has come to place s; everything before k is done, and k may be in front of s or behind it. */
  ghost predicate Scanned(goal: string, line: string, k: nat, s: nat, name: string, newName: string,
          stray: int -> char) {
    && Boundary(line, k) && Rest(line, k, name, newName, stray) == goal
    && (forall p: nat :: k <= p < s ==> !WholeAt(line, name, p))
    && (forall p: nat :: s <= p < k ==> !WholeAt(line, name, p))
  }

  lemma ScanStarts(line: string, name: string, newName: string, stray: int -> char)
    ensures Scanned(Renamed("", line, name, newName, stray), line, 0, 0, name, newName, stray)
  {
    hide Renamed;
    assert line[..0] == "" && line[0..] == line;
  }

  lemma ScanSkips(goal: string, line: string, k: nat, s: nat, q: nat, name: string, newName: string, stray: int -> char)
    requires Scanned(goal, line, k, s, name, newName, stray)
    requires s <= q && forall p: nat :: s <= p <= q ==> !WholeAt(line, name, p)
    ensures Scanned(goal, line, k, q + 1, name, newName, stray)
  {
    hide Rest, WholeAt;
  }

  lemma ScanRenames(goal: string, line: string, k: nat, s: nat, q: nat, name: string, newName: string,
          stray: int -> char)
    requires IsWord(name) && IsWord(newName) && Scanned(goal, line, k, s, name, newName, stray)
    requires s <= q && WholeAt(line, name, q) && forall p: nat :: s <= p < q ==> !WholeAt(line, name, p)
    ensures k <= q
    ensures var w := if Free(line[..q], stray) then newName else name;
            Scanned(goal, line[..q] + w + line[q + |name|..], q + |w|, q + 1, name, newName, stray)
  {
    hide Rest, Free;
    Advance(line, k, q, name, newName, stray);
    RenameHere(line, q, name, newName, stray);
    var w := if Free(line[..q], stray) then newName else name;
    InsideIsWord(line, q, w, line[q + |name|..], name);
    var line' := line[..q] + w + line[q + |name|..];
    assert q + |w| < |line'| ==> line'[q + |w|] == line[q + |name|];
  }

  lemma ScanEnds(goal: string, line: string, k: nat, s: nat, name: string, newName: string, stray: int -> char)
    requires IsWord(name) && Scanned(goal, line, k, s, name, newName, stray)
    requires forall p: nat :: s <= p ==> !WholeAt(line, name, p)
    ensures goal == line
  {
    hide Renamed;
    Advance(line, k, |line|, name, newName, stray);
    assert line[..|line|] == line && line[|line|..] == "";
    NothingLeftToRename(line, name, newName, stray);
  }

  /** The scan over one line. It ends although every replacement makes the line longer: an occurrence that starts inside
      an inserted name has a word character in front of it. */
  method RenameInLine(line0: string, name: string, newName: string, stray: int -> char) returns (line: string)
    requires IsWord(name) && IsWord(newName)
    ensures line == Renamed("", line0, name, newName, stray)
  {
    hide Free, Renamed, Scanned, WholeAt, OccursAt;
    ghost var goal := Renamed("", line0, name, newName, stray);
    line := line0;
    var found := Find(line, name, 0);
    ghost var s: nat, k: nat := 0, 0;
    ScanStarts(line, name, newName, stray);
    while found.Some?
      invariant found == Find(line, name, s) && k <= |line| && s <= |line| + 1
      invariant Scanned(goal, line, k, s, name, newName, stray)
      decreases |line| - k, |line| + 1 - s
    {
      var q := found.value;
      NoneWhole(line, name, s);
      var valid := IsValidVariable(line, name, q, stray);
      TestedWhole(line, name, q, stray);
      if WholeAt(line, name, q) {
        ScanRenames(goal, line, k, s, q, name, newName, stray);
        assert line[..q] + name + line[q + |name|..] == line;
        k := q + if valid then |newName| else |name|;
      } else {
        ScanSkips(goal, line, k, s, q, name, newName, stray);
      }
      if valid {
        line := line[..q] + newName + line[q + |name|..];
      }
      found := Find(line, name, q + 1);
      s := q + 1;
    }
    NoneWhole(line, name, s);
    ScanEnds(goal, line, k, s, name, newName, stray);
  }

  lemma NoneWhole(line: string, name: string, s: nat)
    ensures Find(line, name, s).Some? ==>
              var q := Find(line, name, s).value; s <= q <= |line| - |name| && line[q..q + |name|] == name
    ensures forall p: nat :: s <= p && (Find(line, name, s).Some? ==> p < Find(line, name, s).value) ==>
              !WholeAt(line, name, p)
  {
    FindIsFirst(line, name, s);
  }

  lemma NothingLeftToRename(a: string, name: string, newName: string, stray: int -> char)
    ensures Renamed(a, "", name, newName, stray) == ""
  {
  }

  lemma {:induction false} FindIsFirst(b: string, sub: string, j: nat)
    ensures Find(b, sub, j).Some? ==> j <= Find(b, sub, j).value
    ensures forall k :: j <= k && (Find(b, sub, j).Some? ==> k < Find(b, sub, j).value) ==> !OccursAt(b, sub, k)
    decreases |b| - j
  {
    if j + |sub| <= |b| && !OccursAt(b, sub, j) {
      FindIsFirst(b, sub, j + 1);
    }
  }

  /** The test accepts whole names only. */
  lemma TestedWhole(line: string, name: string, q: nat, stray: int -> char)
    requires OccursAt(line, name, q)
    ensures Free(line[..q], stray) && (q + |name| == |line| || !IsWordChar(line[q + |name|]))
            <==> Free(line[..q], stray) && WholeAt(line, name, q)
  {
    if q > 0 && IsWordChar(line[q - 1]) {
      assert line[..q][q - 1] == line[q - 1];
      assert TrimRight(line[..q]) == line[..q];
    }
  }

  // ----- what it means for the tokens of the line -----

  /** C text as the scan sees it: identifiers, keywords and numbers are words, every other character stands alone. */
  datatype Token = Word(text: string) | Mark(c: char)

  function Tokens(s: string): seq<Token>
    decreases |s|
  {
    if s == "" then []
    else if !IsWordChar(s[0]) then [Mark(s[0])] + Tokens(s[1..])
    else var n := WordLength(s); [Word(s[..n])] + Tokens(s[n..])
  }

  function Text(ts: seq<Token>): string {
    if ts == [] then "" else (match ts[0] case Word(w) => w case Mark(c) => [c]) + Text(ts[1..])
  }

  predicate StartsApart(s: string) {
    s == "" || !IsWordChar(s[0])
  }

  lemma WordLengthOf(w: string, rest: string)
    requires IsWord(w) && StartsApart(rest)
    ensures WordLength(w + rest) == |w|
  {
    var s := w + rest;
    var n := WordLength(s);
    assert forall i :: 0 <= i < |w| ==> s[i] == w[i];
    assert rest != "" ==> s[|w|] == rest[0];
  }

  lemma TokensOfWord(w: string, rest: string)
    requires IsWord(w) && StartsApart(rest)
    ensures Tokens(w + rest) == [Word(w)] + Tokens(rest)
  {
    WordLengthOf(w, rest);
    assert (w + rest)[0] == w[0] && (w + rest)[..|w|] == w && (w + rest)[|w|..] == rest;
  }

  lemma TokensOfMark(c: char, rest: string)
    requires !IsWordChar(c)
    ensures Tokens([c] + rest) == [Mark(c)] + Tokens(rest)
  {
    assert ([c] + rest)[1..] == rest;
  }

  lemma RenamedApart(a: string, b: string, name: string, newName: string, stray: int -> char)
    requires StartsApart(b)
    ensures StartsApart(Renamed(a, b, name, newName, stray))
  {
  }

  /** The first word of b. */
  lemma FirstWord(b: string) returns (w: string, rest: string)
    requires b != "" && IsWordChar(b[0])
    ensures b == w + rest && IsWord(w) && StartsApart(rest) && |rest| < |b|
    ensures WordLength(b) == |w| && b[..|w|] == w && b[|w|..] == rest
  {
    var n := WordLength(b);
    w, rest := b[..n], b[n..];
  }

  lemma TextCons(t: Token, ts: seq<Token>)
    ensures Text([t] + ts) == (match t case Word(w) => w case Mark(c) => [c]) + Text(ts)
  {
    assert ([t] + ts)[1..] == ts;
  }

  ghost predicate TokensRenamed(a: string, ts: seq<Token>, us: seq<Token>, name: string, newName: string,
          stray: int -> char) {
    |us| == |ts| && forall i :: 0 <= i < |ts| ==>
      us[i] == if ts[i] == Word(name) && Free(a + Text(us[..i]), stray) then Word(newName) else ts[i]
  }

  lemma TokensRenamedCons(a: string, t: Token, u: Token, ts: seq<Token>, us: seq<Token>, name: string, newName: string,
                          stray: int -> char)
    requires u == if t == Word(name) && Free(a, stray) then Word(newName) else t
    requires TokensRenamed(a + Text([u]), ts, us, name, newName, stray)
    ensures TokensRenamed(a, [t] + ts, [u] + us, name, newName, stray)
  {
    hide Free;
    var ts', us' := [t] + ts, [u] + us;
    forall i | 0 <= i < |ts'|
      ensures us'[i] == if ts'[i] == Word(name) && Free(a + Text(us'[..i]), stray) then Word(newName) else ts'[i]
    {
      if i == 0 {
        assert a + Text(us'[..0]) == a;
      } else {
        assert us'[..i] == [u] + us[..i - 1];
        TextCons(u, us[..i - 1]);
        TextCons(u, []);
        assert [u] + [] == [u];
        assert a + Text(us'[..i]) == a + Text([u]) + Text(us[..i - 1]);
      }
    }
  }

  /** The tokens of the new line are those of the old one, except that the old name becomes the new one, whole, exactly
      where the text in front of it lets it be a variable. */
  lemma {:induction false} RenamesTokens(a: string, b: string, name: string, newName: string, stray: int -> char)
    requires IsWord(name) && IsWord(newName)
    ensures TokensRenamed(a, Tokens(b), Tokens(Renamed(a, b, name, newName, stray)), name, newName, stray)
    decreases |b|
  {
    hide Free, TokensRenamed;
    if b == "" {
      NoTokens(a, name, newName, stray);
    } else if !IsWordChar(b[0]) {
      var c, rest := b[0], Renamed(a + [b[0]], b[1..], name, newName, stray);
      RenamesTokens(a + [c], b[1..], name, newName, stray);
      TokensOfMark(c, rest);
      TextCons(Mark(c), []);
      assert Text([Mark(c)]) == [c];
      TokensRenamedCons(a, Mark(c), Mark(c), Tokens(b[1..]), Tokens(rest), name, newName, stray);
    } else {
      var w, more := FirstWord(b);
      var w' := if w == name && Free(a, stray) then newName else w;
      var rest := Renamed(a + w', more, name, newName, stray);
      assert Renamed(a, b, name, newName, stray) == w' + rest;
      RenamesTokens(a + w', more, name, newName, stray);
      RenamedApart(a + w', more, name, newName, stray);
      TokensOfWord(w, more);
      TokensOfWord(w', rest);
      assert Text([Word(w')]) == w' by {
        assert [Word(w')][1..] == [];
      }
      TokensRenamedCons(a, Word(w), Word(w'), Tokens(more), Tokens(rest), name, newName, stray);
    }
  }

  lemma NoTokens(a: string, name: string, newName: string, stray: int -> char)
    ensures TokensRenamed(a, Tokens(""), Tokens(Renamed(a, "", name, newName, stray)), name, newName, stray)
  {
  }

  // ----- nothing is captured -----

  /** The two texts end alike: they are equal, or equal from a word on that both contain. */
  ghost predicate EndAlike(x: string, y: string) {
    x == y || exists n: nat :: EndAlikeBy(x, y, n)
  }

  predicate EndAlikeBy(x: string, y: string, n: nat) {
    && n < |x| && n < |y| && x[|x| - n..] == y[|y| - n..]
    && IsWordChar(x[|x| - n - 1]) && IsWordChar(y[|y| - n - 1])
  }

  lemma {:induction false} TrimTail(s: string, i: nat)
    requires 0 < i <= |s| && s[i - 1] != ' '
    ensures TrimRight(s) == s[..i] + TrimRight(s[i..])
    decreases |s|
  {
    if i < |s| && s[|s|-1] == ' ' {
      var init := s[..|s|-1];
      TrimTail(init, i);
      assert init[..i] == s[..i] && init[i..] == s[i..][..|s| - i - 1];
      assert s[i..][|s| - i - 1] == ' ';
    } else if i == |s| {
      assert s[i..] == "" && s[..i] == s;
    } else {
      assert s[i..][|s| - i - 1] == s[|s|-1];
      assert s[..i] + s[i..] == s;
    }
  }

  /** Behind a word, the test depends on what follows the word only. */
  predicate FreeBehindWord(tail: string) {
    var z := TrimRight(tail);
    z != "" && AllowsName(z[|z|-1], if |z| >= 2 then z[|z|-2] else 'w')
  }

  lemma FreeTail(x: string, i: nat, stray: int -> char)
    requires 0 < i <= |x| && IsWordChar(x[i - 1])
    ensures Free(x, stray) <==> FreeBehindWord(x[i..])
  {
    var z := TrimRight(x[i..]);
    TrimTail(x, i);
    hide TrimRight;
    var a := x[..i];
    assert a[|a|-1] == x[i - 1];
    var t := a + z;
    assert z == "" ==> t[|t|-1] == a[|a|-1];
    assert z != "" ==> t[|t|-1] == z[|z|-1];
    assert |z| > 1 ==> t[|t|-2] == z[|z|-2];
    assert |z| == 1 ==> t[|t|-2] == a[|a|-1];
  }

  /** The test looks back no further than to the last word. */
  lemma FreeAlike(x: string, y: string, stray: int -> char)
    requires EndAlike(x, y)
    ensures Free(x, stray) <==> Free(y, stray)
  {
    hide Free, FreeBehindWord;
    if x != y {
      var n: nat :| EndAlikeBy(x, y, n);
      FreeTail(x, |x| - n, stray);
      FreeTail(y, |y| - n, stray);
    }
  }

  lemma AlikeMark(x: string, y: string, c: char)
    requires EndAlike(x, y)
    ensures EndAlike(x + [c], y + [c])
  {
    if x != y {
      var n: nat :| EndAlikeBy(x, y, n);
      var x', y' := x + [c], y + [c];
      assert x'[|x'| - (n + 1)..] == x[|x| - n..] + [c];
      assert y'[|y'| - (n + 1)..] == y[|y| - n..] + [c];
      assert EndAlikeBy(x', y', n + 1);
    }
  }

  lemma AlikeWord(x: string, y: string, v: string, w: string)
    requires IsWord(v) && IsWord(w)
    ensures EndAlike(x + v, y + w)
  {
    assert (x + v)[|x + v| - 1] == v[|v| - 1] && (y + w)[|y + w| - 1] == w[|w| - 1];
    assert EndAlikeBy(x + v, y + w, 0);
  }

  /** Renaming to a name that the line does not use loses nothing: renaming back gives the line again. */
  lemma {:induction false} RenameBack(x: string, y: string, b: string, name: string, newName: string,
          stray: int -> char)
    requires IsWord(name) && IsWord(newName) && EndAlike(x, y) && Word(newName) !in Tokens(b)
    ensures Renamed(y, Renamed(x, b, name, newName, stray), newName, name, stray) == b
    decreases |b|
  {
    hide Free, EndAlike;
    if b == "" {
    } else if !IsWordChar(b[0]) {
      var c, rest := b[0], b[1..];
      AlikeMark(x, y, c);
      RenameBack(x + [c], y + [c], rest, name, newName, stray);
      var mid := Renamed(x + [c], rest, name, newName, stray);
      assert ([c] + mid)[1..] == mid;
      assert [c] + rest == b;
    } else {
      RenameBackWord(x, y, b, name, newName, stray);
    }
  }

  lemma {:induction false} RenameBackWord(x: string, y: string, b: string, name: string, newName: string,
          stray: int -> char)
    requires IsWord(name) && IsWord(newName) && EndAlike(x, y) && Word(newName) !in Tokens(b)
    requires b != "" && IsWordChar(b[0])
    ensures Renamed(y, Renamed(x, b, name, newName, stray), newName, name, stray) == b
    decreases |b|, 0
  {
    hide Free, EndAlike, WordLength;
    var w, rest := FirstWord(b);
    TokensOfWord(w, rest);
    FreeAlike(x, y, stray);
    var w' := if w == name && Free(x, stray) then newName else w;
    var mid := Renamed(x + w', rest, name, newName, stray);
    assert Renamed(x, b, name, newName, stray) == w' + mid;
    RenamedApart(x + w', rest, name, newName, stray);
    WordLengthOf(w', mid);
    assert (w' + mid)[0] == w'[0] && (w' + mid)[..|w'|] == w' && (w' + mid)[|w'|..] == mid;
    assert w != newName;
    assert Renamed(y, w' + mid, newName, name, stray) == w + Renamed(y + w, mid, newName, name, stray);
    AlikeWord(x, y, w', w);
    RenameBack(x + w', y + w, rest, name, newName, stray);
  }

  /** Renaming a second time changes nothing. */
  lemma {:induction false} RenameAgain(a: string, b: string, name: string, newName: string, stray: int -> char)
    requires IsWord(name) && IsWord(newName) && name != newName
    ensures var once := Renamed(a, b, name, newName, stray);
            Renamed(a, once, name, newName, stray) == once
    decreases |b|
  {
    hide Free, WordLength;
    if b == "" {
    } else if !IsWordChar(b[0]) {
      var c := b[0];
      RenameAgain(a + [c], b[1..], name, newName, stray);
      var mid := Renamed(a + [c], b[1..], name, newName, stray);
      assert ([c] + mid)[1..] == mid;
    } else {
      var w, rest := FirstWord(b);
      var w' := if w == name && Free(a, stray) then newName else w;
      var mid := Renamed(a + w', rest, name, newName, stray);
      assert Renamed(a, b, name, newName, stray) == w' + mid;
      RenamedApart(a + w', rest, name, newName, stray);
      WordLengthOf(w', mid);
      assert (w' + mid)[0] == w'[0] && (w' + mid)[..|w'|] == w' && (w' + mid)[|w'|..] == mid;
      RenameAgain(a + w', rest, name, newName, stray);
    }
  }

  // ----- the text, line by line -----

  function LineEnd(text: string): (n: nat)
    ensures n <= |text| && (forall i :: 0 <= i < n ==> text[i] != '\n')
    ensures n < |text| ==> text[n] == '\n'
  {
    if text == "" || text[0] == '\n' then 0 else 1 + LineEnd(text[1..])
  }

  /** `std::getline` until the text is used up. */
  function Lines(text: string): seq<string>
    decreases |text|
  {
    if text == "" then []
    else
      var n := LineEnd(text);
      [text[..n]] + Lines(if n == |text| then "" else text[n + 1..])
  }

  function Unlines(lines: seq<string>): string {
    if lines == [] then "" else lines[0] + "\n" + Unlines(lines[1..])
  }

  /** A line with Hecaton's own comments is left alone. */
  function NewLine(line: string, name: string, newName: string, stray: int -> char): string {
    if Contains(line, "Hecaton") then line else Renamed("", line, name, newName, stray)
  }

  /** The lines from number i on; what stands in memory in front of a line is a matter of that line. */
  function NewLines(lines: seq<string>, i: nat, name: string, newName: string, stray: nat -> int -> char): seq<string> {
    if lines == [] then []
    else [NewLine(lines[0], name, newName, stray(i))] + NewLines(lines[1..], i + 1, name, newName, stray)
  }

  method ReplaceVariable(text: string, name: string, newName: string, stray: nat -> int -> char)
    returns (newText: string)
    requires IsWord(name) && IsWord(newName)
    ensures newText == Unlines(NewLines(Lines(text), 0, name, newName, stray))
  {
    hide NewLine, LineEnd, Lines, NewLines, Unlines, Contains, Renamed;
    newText := "";
    var rest, i := text, 0;
    while rest != ""
      invariant newText + Unlines(NewLines(Lines(rest), i, name, newName, stray))
             == Unlines(NewLines(Lines(text), 0, name, newName, stray))
      decreases |rest|
    {
      var n := LineEnd(rest);
      var line := rest[..n];
      var more := if n == |rest| then "" else rest[n + 1..];
      LinesStep(rest, i, name, newName, stray);
      var hecaton := Find(line, "Hecaton", 0);
      FindTells(line, "Hecaton");
      ghost var old_ := line;
      if hecaton.None? {
        line := RenameInLine(line, name, newName, stray(i));
      }
      assert line == NewLine(old_, name, newName, stray(i)) by { NewLineIs(old_, name, newName, stray(i)); }
      Glue(newText, line, "\n", Unlines(NewLines(Lines(more), i + 1, name, newName, stray)));
      newText := newText + line + "\n";
      rest, i := more, i + 1;
    }
    NoLines(i, name, newName, stray);
  }

  lemma Glue(a: string, b: string, c: string, d: string)
    ensures a + (b + c + d) == a + b + c + d
  {
  }

  lemma NoLines(i: nat, name: string, newName: string, stray: nat -> int -> char)
    ensures Unlines(NewLines(Lines(""), i, name, newName, stray)) == ""
  {
  }

  lemma FindTells(line: string, sub: string)
    ensures Find(line, sub, 0).Some? <==> Contains(line, sub)
  {
  }

  lemma NewLineIs(line: string, name: string, newName: string, stray: int -> char)
    ensures NewLine(line, name, newName, stray)
            == if Contains(line, "Hecaton") then line else Renamed("", line, name, newName, stray)
  {
  }

  lemma LinesStep(text: string, i: nat, name: string, newName: string, stray: nat -> int -> char)
    requires text != ""
    ensures var n := LineEnd(text);
            var more := if n == |text| then "" else text[n + 1..];
            Unlines(NewLines(Lines(text), i, name, newName, stray))
            == NewLine(text[..n], name, newName, stray(i)) + "\n"
               + Unlines(NewLines(Lines(more), i + 1, name, newName, stray))
  {
    hide NewLine, LineEnd;
    var n := LineEnd(text);
    var more := Lines(if n == |text| then "" else text[n + 1..]);
    assert ([text[..n]] + more)[1..] == more;
    var line, rest := NewLine(text[..n], name, newName, stray(i)), NewLines(more, i + 1, name, newName, stray);
    assert ([line] + rest)[1..] == rest;
  }

  predicate OneLine(s: string) {
    '\n' !in s
  }

  lemma {:induction false} RenamedOneLine(a: string, b: string, name: string, newName: string, stray: int -> char)
    requires IsWord(newName) && OneLine(b)
    ensures OneLine(Renamed(a, b, name, newName, stray))
    decreases |b|
  {
    hide Free, WordLength;
    if b != "" {
      if !IsWordChar(b[0]) {
        RenamedOneLine(a + [b[0]], b[1..], name, newName, stray);
      } else {
        var w, rest := FirstWord(b);
        var w' := if w == name && Free(a, stray) then newName else w;
        RenamedOneLine(a + w', rest, name, newName, stray);
      }
    }
  }

  lemma {:induction false} LinesAreLines(text: string)
    ensures forall l :: l in Lines(text) ==> OneLine(l)
    decreases |text|
  {
    if text != "" {
      var n := LineEnd(text);
      LinesAreLines(if n == |text| then "" else text[n + 1..]);
    }
  }

  lemma LineEndOf(line: string, rest: string)
    requires OneLine(line)
    ensures LineEnd(line + "\n" + rest) == |line|
  {
    var s := line + "\n" + rest;
    var n := LineEnd(s);
    assert s[|line|] == '\n' && forall i :: 0 <= i < |line| ==> s[i] == line[i];
  }

  lemma {:induction false} LinesOfUnlines(lines: seq<string>)
    requires forall l :: l in lines ==> OneLine(l)
    ensures Lines(Unlines(lines)) == lines
  {
    hide OneLine, LineEnd;
    if lines != [] {
      var rest := Unlines(lines[1..]);
      LinesOfUnlines(lines[1..]);
      LineEndOf(lines[0], rest);
      var s := lines[0] + "\n" + rest;
      assert s[..|lines[0]|] == lines[0] && s[|lines[0]| + 1..] == rest;
    }
  }

  lemma {:induction false} NewLinesAt(lines: seq<string>, i: nat, name: string, newName: string,
          stray: nat -> int -> char)
    ensures |NewLines(lines, i, name, newName, stray)| == |lines|
    ensures forall k :: 0 <= k < |lines| ==>
              NewLines(lines, i, name, newName, stray)[k] == NewLine(lines[k], name, newName, stray(i + k))
  {
    hide NewLine;
    if lines != [] {
      NewLinesAt(lines[1..], i + 1, name, newName, stray);
    }
  }

  /** The new text has the lines of the old one: those that mention Hecaton as they were, the others with their tokens
      renamed. */
  lemma TextRenamed(text: string, name: string, newName: string, stray: nat -> int -> char)
    requires IsWord(name) && IsWord(newName)
    ensures var new_ := Unlines(NewLines(Lines(text), 0, name, newName, stray));
            && |Lines(new_)| == |Lines(text)|
            && forall k :: 0 <= k < |Lines(text)| ==>
                 if Contains(Lines(text)[k], "Hecaton") then Lines(new_)[k] == Lines(text)[k]
                 else TokensRenamed("", Tokens(Lines(text)[k]), Tokens(Lines(new_)[k]), name, newName, stray(k))
  {
    hide TokensRenamed, Lines, Unlines, Renamed;
    var lines := Lines(text);
    var news := NewLines(lines, 0, name, newName, stray);
    NewLinesAt(lines, 0, name, newName, stray);
    LinesAreLines(text);
    forall k | 0 <= k < |lines| ensures OneLine(news[k]) {
      assert lines[k] in lines;
      RenamedOneLine("", lines[k], name, newName, stray(k));
    }
    LinesOfUnlines(news);
    forall k | 0 <= k < |lines| && !Contains(lines[k], "Hecaton")
      ensures TokensRenamed("", Tokens(lines[k]), Tokens(news[k]), name, newName, stray(k))
    {
      RenamesTokens("", lines[k], name, newName, stray(k));
    }
  }
}
