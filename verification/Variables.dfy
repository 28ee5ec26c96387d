/** Which words of a line the renaming of a variable changes, token by token. */
module Variables {
  import opened Rename

  /** The tokens without the spaces at their end. */
  function WithoutSpaces(ts: seq<Token>): seq<Token> {
    if ts != [] && ts[|ts|-1] == Mark(' ') then WithoutSpaces(ts[..|ts|-1]) else ts
  }

  /** The tokens end with a member access: a dot or an arrow. */
  predicate EndsInAccess(ts: seq<Token>) {
    ts != [] && (ts[|ts|-1] == Mark('.') || (|ts| >= 2 && ts[|ts|-2] == Mark('-') && ts[|ts|-1] == Mark('>')))
  }

  predicate EndsInWord(ts: seq<Token>) {
    ts != [] && ts[|ts|-1].Word?
  }

  // ----- tokens and their text -----

  predicate Proper(ts: seq<Token>) {
    forall i :: 0 <= i < |ts| ==>
      match ts[i]
      case Word(w) => IsWord(w)
      case Mark(c) => !IsWordChar(c)
  }

  lemma {:induction false} TokensAreProper(s: string)
    ensures Proper(Tokens(s))
    decreases |s|
  {
    if s != "" {
      if !IsWordChar(s[0]) {
        TokensAreProper(s[1..]);
      } else {
        var w, rest := FirstWord(s);
        TokensAreProper(rest);
      }
    }
  }

  /** The tokens of a line spell it: words of letters, digits and underscores, as long as they can be, and every other
      character on its own. */
  lemma {:induction false} TokensSpell(s: string)
    ensures Text(Tokens(s)) == s
    ensures forall i :: 0 < i < |Tokens(s)| ==> Tokens(s)[i - 1].Mark? || Tokens(s)[i].Mark?
    ensures forall t :: t in Tokens(s) && t.Word? ==> t.text != "" && forall c :: c in t.text ==>
              '0' <= c <= '9' || 'A' <= c <= 'Z' || 'a' <= c <= 'z' || c == '_'
    ensures forall t :: t in Tokens(s) && t.Mark? ==>
              !('0' <= t.c <= '9' || 'A' <= t.c <= 'Z' || 'a' <= t.c <= 'z' || t.c == '_')
    decreases |s|
  {
    hide WordLength;
    if s != "" {
      if !IsWordChar(s[0]) {
        TokensSpell(s[1..]);
        TokensOfMark(s[0], s[1..]);
        TextCons(Mark(s[0]), Tokens(s[1..]));
      } else {
        var w, rest := FirstWord(s);
        TokensSpell(rest);
        TokensOfWord(w, rest);
        TextCons(Word(w), Tokens(rest));
      }
    }
  }

  function TextOf(t: Token): string {
    match t
    case Word(w) => w
    case Mark(c) => [c]
  }

  lemma {:induction false} TextSnoc(ts: seq<Token>, t: Token)
    ensures Text(ts + [t]) == Text(ts) + TextOf(t)
  {
    if ts == [] {
      assert [] + [t] == [t] && [t][1..] == [];
    } else {
      assert (ts + [t])[1..] == ts[1..] + [t];
      TextSnoc(ts[1..], t);
    }
  }

  /** The last token of a text and its last character. */
  lemma LastOf(ts: seq<Token>)
    requires Proper(ts) && ts != []
    ensures Text(ts) == Text(ts[..|ts|-1]) + TextOf(ts[|ts|-1]) && TextOf(ts[|ts|-1]) != ""
    ensures Text(ts) != ""
    ensures match ts[|ts|-1]
            case Word(_) => IsWordChar(Text(ts)[|Text(ts)|-1])
            case Mark(c) =>
              !IsWordChar(c) && Text(ts)[|Text(ts)|-1] == c && Text(ts)[..|Text(ts)|-1] == Text(ts[..|ts|-1])
  {
    var front, last := ts[..|ts|-1], ts[|ts|-1];
    assert ts == front + [last];
    TextSnoc(front, last);
    assert Text(ts)[|Text(ts)|-1] == TextOf(last)[|TextOf(last)|-1];
  }

  lemma {:induction false} TrimTokens(ts: seq<Token>)
    requires Proper(ts)
    ensures TrimRight(Text(ts)) == Text(WithoutSpaces(ts)) && Proper(WithoutSpaces(ts))
  {
    if ts != [] {
      LastOf(ts);
      if ts[|ts|-1] == Mark(' ') {
        TrimTokens(ts[..|ts|-1]);
      }
    }
  }

  lemma LastIsDash(ts: seq<Token>)
    requires Proper(ts) && ts != []
    ensures Text(ts) != "" && (Text(ts)[|Text(ts)|-1] == '-' <==> ts[|ts|-1] == Mark('-'))
  {
    LastOf(ts);
  }

  /** The last two characters of a text. */
  lemma LastTwo(p: seq<Token>, stray: int -> char)
    requires Proper(p) && p != []
    ensures var t := Text(p);
            && t != ""
            && (p[|p|-1].Word? ==> IsWordChar(t[|t|-1]))
            && (p[|p|-1].Mark? ==> t[|t|-1] == p[|p|-1].c && !IsWordChar(t[|t|-1]) && (|p| == 1 <==> |t| == 1))
            && (p[|p|-1].Mark? && |p| >= 2 ==> (t[|t|-2] == '-' <==> p[|p|-2] == Mark('-')))
  {
    hide IsWordChar, Text, Proper;
    LastOf(p);
    if p[|p|-1].Mark? {
      var front := p[..|p|-1];
      if front == [] {
        assert Text(front) == "" by { NoText(front); }
      } else {
        ProperFront(p);
        LastIsDash(front);
      }
    }
  }

  lemma ProperFront(p: seq<Token>)
    requires Proper(p) && p != []
    ensures Proper(p[..|p|-1])
  {
  }

  /** What the text in front of a name allows, read off its tokens. */
  lemma FreeByTokens(ts: seq<Token>, stray: int -> char)
    requires Proper(ts) && ts != []
    ensures var p := WithoutSpaces(ts);
            if p == [] then Free(Text(ts), stray)
            else if p == [Mark('>')] then Free(Text(ts), stray) <==> stray(-1) != '-'
            else Free(Text(ts), stray) <==> !EndsInWord(p) && !EndsInAccess(p)
  {
    hide Proper, IsAlnum, WithoutSpaces, TrimRight;
    LastIsDash(ts);
    TrimTokens(ts);
    var p := WithoutSpaces(ts);
    if p == [] {
      assert Text(p) == "" by { NoText(p); }
    } else {
      LastTwo(p, stray);
      hide Text;
      assert p == [Mark('>')] <==> |p| == 1 && p[0] == Mark('>');
    }
  }

  // ----- the same tokens in front -----

  lemma {:induction false} SameFronts(ts: seq<Token>, us: seq<Token>)
    requires |ts| == |us| && forall i :: 0 <= i < |ts| ==> us[i] == ts[i] || (us[i].Word? && ts[i].Word?)
    ensures |WithoutSpaces(us)| == |WithoutSpaces(ts)| <= |ts|
    ensures WithoutSpaces(us) == us[..|WithoutSpaces(us)|] && WithoutSpaces(ts) == ts[..|WithoutSpaces(ts)|]
  {
    if ts != [] && ts[|ts|-1] == Mark(' ') {
      SameFronts(ts[..|ts|-1], us[..|us|-1]);
    }
  }

  /** The renaming of a line, word by word. A word other than the old name stays. Behind a word, a dot or an arrow,
      spaces skipped, the old name stays, too: it is a keyword's operand, a declared name or a member. Behind any other
      mark, and behind nothing but spaces, it becomes the new name, whole. At column 0, and behind a `>` at column 0,
      it depends on what is read in front of the line. */
  lemma RenamedWords(line: string, name: string, newName: string, stray: int -> char, i: nat)
    requires IsWord(name) && IsWord(newName) && i < |Tokens(line)|
    ensures |Tokens(Renamed("", line, name, newName, stray))| == |Tokens(line)|
    ensures var t, u := Tokens(line)[i], Tokens(Renamed("", line, name, newName, stray))[i];
            var p := WithoutSpaces(Tokens(line)[..i]);
            if t != Word(name) then u == t
            else if i == 0 then
              u == if IsAlnum(stray(-1)) || stray(-1) == '_' || stray(-1) == '.'
                      || (stray(-1) == '>' && stray(-2) == '-')
                   then t else Word(newName)
            else if p == [Mark('>')] then u == if stray(-1) == '-' then t else Word(newName)
            else u == if EndsInWord(p) || EndsInAccess(p) then t else Word(newName)
  {
    hide Tokens, Renamed, Text, IsAlnum;
    var ts, us := Tokens(line), Tokens(Renamed("", line, name, newName, stray));
    RenamesTokens("", line, name, newName, stray);
    TokensAreProper(Renamed("", line, name, newName, stray));
    var front, front' := ts[..i], us[..i];
    assert "" + Text(front') == Text(front');
    if i == 0 {
      assert Text(front') == "" by { NoText(front'); }
    } else {
      FreeByTokens(front', stray);
      SameFronts(front, front');
      SameEnds(WithoutSpaces(front), WithoutSpaces(front'));
    }
  }

  lemma NoText(ts: seq<Token>)
    requires ts == []
    ensures Text(ts) == ""
  {
  }

  lemma SameEnds(p: seq<Token>, q: seq<Token>)
    requires |p| == |q| && forall i :: 0 <= i < |p| ==> q[i] == p[i] || (q[i].Word? && p[i].Word?)
    ensures (EndsInWord(p) <==> EndsInWord(q)) && (EndsInAccess(p) <==> EndsInAccess(q))
    ensures p == [Mark('>')] <==> q == [Mark('>')]
    ensures p == [] <==> q == []
  {
  }
}
