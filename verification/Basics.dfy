/** Small tools shared by the models. */
module Basics {

  datatype Option<+T> = None | Some(value: T)

  /** Some stretch of `text` starting at i equals `needle`. */
  predicate OccursAt(text: string, needle: string, i: int) {
    0 <= i <= |text| - |needle| && text[i..i + |needle|] == needle
  }

  predicate Contains(text: string, needle: string) {
    exists i | 0 <= i <= |text| - |needle| :: OccursAt(text, needle, i)
  }

  /** A text contains another when it is that one with some text in front of it and some behind. */
  lemma ContainsIs(text: string, needle: string)
    ensures Contains(text, needle) <==> exists front: string, back: string :: text == front + needle + back
  {
    if Contains(text, needle) {
      var i :| 0 <= i <= |text| - |needle| && OccursAt(text, needle, i);
      assert text == text[..i] + needle + text[i + |needle|..];
    }
    if front: string, back: string :| text == front + needle + back {
      assert OccursAt(text, needle, |front|);
    }
  }

  predicate MentionsAny(text: string, needles: seq<string>) {
    exists n | n in needles :: Contains(text, n)
  }

  function Filter<T>(s: seq<T>, p: T -> bool): seq<T> {
    if s == [] then []
    else if p(s[0]) then [s[0]] + Filter(s[1..], p)
    else Filter(s[1..], p)
  }

  lemma FilterCons<T>(x: T, rest: seq<T>, p: T -> bool)
    ensures Filter([x] + rest, p) == if p(x) then [x] + Filter(rest, p) else Filter(rest, p)
  {
    assert ([x] + rest)[1..] == rest;
  }

  lemma {:induction false} FilterAppend<T>(a: seq<T>, b: seq<T>, p: T -> bool)
    ensures Filter(a + b, p) == Filter(a, p) + Filter(b, p)
  {
    if a == [] {
      assert a + b == b;
    } else {
      assert (a + b)[1..] == a[1..] + b;
      FilterAppend(a[1..], b, p);
    }
  }

  lemma {:induction false} FilterMembers<T>(s: seq<T>, p: T -> bool, x: T)
    ensures x in Filter(s, p) <==> x in s && p(x)
  {
    if s != [] {
      FilterMembers(s[1..], p, x);
      assert s == [s[0]] + s[1..];
    }
  }

  lemma {:induction false} FilterLength<T>(s: seq<T>, p: T -> bool)
    ensures |Filter(s, p)| <= |s|
    ensures |Filter(s, p)| == |s| <==> forall x :: x in s ==> p(x)
  {
    if s != [] {
      FilterLength(s[1..], p);
      assert s == [s[0]] + s[1..];
    }
  }
}
