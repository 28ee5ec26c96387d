/** The similarity of two printed statements: their longest common substrings are cut out again and again. */
module Similarity {
  import opened Basics

  /** The shortest common stretch that counts. */
  const SHORTEST := 3

  /** The stretches of length n at i in a and at j in b are equal. */
  predicate CommonAt(a: string, b: string, n: nat, i: nat, j: nat) {
    i + n <= |a| && j + n <= |b| && a[i..i + n] == b[j..j + n]
  }

  ghost predicate Share(a: string, b: string, n: nat) {
    exists i: nat, j: nat :: CommonAt(a, b, n, i, j)
  }

  /** `string::find`: the first place at or after j where sub occurs. */
  function Find(b: string, sub: string, j: nat): (r: Option<nat>)
    ensures r.Some? ==> OccursAt(b, sub, r.value)
    ensures r.None? ==> forall k :: j <= k ==> !OccursAt(b, sub, k)
    decreases |b| - j
  {
    if j + |sub| > |b| then None
    else if OccursAt(b, sub, j) then Some(j)
    else Find(b, sub, j + 1)
  }

  /** The first stretch of a of length n, at or after i, that occurs in b. */
  function FirstCommon(a: string, b: string, n: nat, i: nat): (r: Option<(nat, nat)>)
    ensures r.Some? ==> CommonAt(a, b, n, r.value.0, r.value.1)
    ensures r.None? ==> forall i': nat, j': nat :: i <= i' ==> !CommonAt(a, b, n, i', j')
    decreases |a| - i
  {
    if i + n > |a| then None
    else
      match Find(b, a[i..i + n], 0)
      case Some(j) => Some((i, j))
      case None =>
        assert forall j': nat :: CommonAt(a, b, n, i, j') ==> OccursAt(b, a[i..i + n], j');
        FirstCommon(a, b, n, i + 1)
  }

  /** A cut: its length and its places in the two strings. */
  datatype Cut = Cut(n: nat, i: nat, j: nat)

  function Longest(a: string, b: string, n: nat): (r: Option<Cut>)
    ensures r.Some? ==> SHORTEST <= r.value.n <= n && CommonAt(a, b, r.value.n, r.value.i, r.value.j)
    ensures r.Some? ==> forall m :: r.value.n < m <= n ==> !Share(a, b, m)
    ensures r.None? ==> forall m :: SHORTEST <= m <= n ==> !Share(a, b, m)
  {
    if n < SHORTEST then None
    else
      match FirstCommon(a, b, n, 0)
      case Some((i, j)) => Some(Cut(n, i, j))
      case None => Longest(a, b, n - 1)
  }

  function Without(s: string, i: nat, n: nat): (r: string)
    requires i + n <= |s|
    ensures |r| == |s| - n
  {
    s[..i] + s[i + n..]
  }

  lemma ShareShorter(a: string, b: string, m: nat, n: nat)
    requires n <= m && Share(a, b, m)
    ensures Share(a, b, n)
  {
    var i: nat, j: nat :| CommonAt(a, b, m, i, j);
    ShorterStretch(a, i, m, n);
    ShorterStretch(b, j, m, n);
    assert CommonAt(a, b, n, i, j);
  }

  lemma ShorterStretch(s: string, i: nat, m: nat, n: nat)
    requires n <= m && i + m <= |s|
    ensures s[i..i + n] == s[i..i + m][..n]
  {
  }

  /** The cut is a longest common substring, and there is none exactly when no three characters in a row are shared. */
  lemma CutIsLongest(a: string, b: string)
    ensures Longest(a, b, |a|).None? <==> !Share(a, b, SHORTEST)
    ensures Longest(a, b, |a|).Some? ==> forall m: nat :: m > Longest(a, b, |a|).value.n ==> !Share(a, b, m)
  {
    var r := Longest(a, b, |a|);
    assert forall m: nat :: Share(a, b, m) ==> m <= |a|;
    if r.Some? {
      var c := r.value;
      assert Share(a, b, c.n) by { assert CommonAt(a, b, c.n, c.i, c.j); }
      ShareShorter(a, b, c.n, SHORTEST);
    }
  }

  /** What `compare` computes: the score and what is left of the two strings. */
  function Compare(a: string, b: string, score: nat): (nat, string, string)
    decreases |a|
  {
    match Longest(a, b, |a|)
    case None => (score, a, b)
    case Some(c) => Compare(Without(a, c.i, c.n), Without(b, c.j, c.n), score + c.n)
  }

  lemma CutSplits(s: string, i: nat, n: nat)
    requires i + n <= |s|
    ensures multiset(s) == multiset(Without(s, i, n)) + multiset(s[i..i + n])
  {
    assert s == s[..i] + s[i..i + n] + s[i + n..];
  }

  lemma Balance<T>(a: multiset<T>, b: multiset<T>, x: multiset<T>, a': multiset<T>, b': multiset<T>)
    requires a + b' == b + a'
    ensures (a + x) + b' == (b + x) + a'
  {
    assert (a + x) + b' == (a + b') + x;
    assert (b + x) + a' == (b + a') + x;
  }

  /** The score counts the characters taken out of either string, the same characters from both; what is left has no
      three characters in a row in common. */
  lemma {:induction false} CompareCounts(a: string, b: string, score: nat)
    ensures var (s, a', b') := Compare(a, b, score);
            && s >= score && s - score == |a| - |a'| == |b| - |b'|
            && multiset(a) + multiset(b') == multiset(b) + multiset(a')
            && !Share(a', b', 3)
    decreases |a|
  {
    hide Longest, Without, Share;
    CutIsLongest(a, b);
    match Longest(a, b, |a|)
    case None =>
    case Some(c) =>
      var x, y := Without(a, c.i, c.n), Without(b, c.j, c.n);
      CompareCounts(x, y, score + c.n);
      CutSplits(a, c.i, c.n);
      CutSplits(b, c.j, c.n);
      var (_, a', b') := Compare(x, y, score + c.n);
      Balance(multiset(x), multiset(y), multiset(a[c.i..c.i + c.n]), multiset(a'), multiset(b'));
  }

  /** The percentage of the first statement that the second one covers. */
  function PairEvaluation(a: string, b: string): nat
    requires a != ""
  {
    Compare(a, b, 0).0 * 100 / |a|
  }

  /** The database generator scores long statements zero before it divides. */
  function DatabaseEvaluation(a: string, b: string): nat
    requires a != "" || |b| > 200
  {
    if |a| > 200 || |b| > 200 then 0 else PairEvaluation(a, b)
  }

  lemma Percent(s: nat, n: nat)
    requires 0 < n && s <= n
    ensures 0 <= s * 100 / n <= 100
    ensures s * 100 / n == 100 <==> s == n
  {
    assert s * 100 <= n * 100;
    assert s < n ==> s * 100 < 100 * n;
  }

  /** A score is a percentage, and it is full exactly when nothing of the first statement is left over. */
  lemma EvaluationIsPercentage(a: string, b: string)
    requires a != ""
    ensures 0 <= PairEvaluation(a, b) <= 100
    ensures PairEvaluation(a, b) == 100 <==> Compare(a, b, 0).1 == ""
  {
    CompareCounts(a, b, 0);
    Percent(Compare(a, b, 0).0, |a|);
  }

  /** Of the first statement, all but what is left over is covered; the score is the whole part of that percentage. */
  lemma EvaluationIsCovered(a: string, b: string)
    requires a != ""
    ensures var covered := |a| - |Compare(a, b, 0).1|;
            covered * 100 - |a| < PairEvaluation(a, b) * |a| <= covered * 100
  {
    CompareCounts(a, b, 0);
    WholePart(Compare(a, b, 0).0 * 100, |a|);
  }

  lemma WholePart(m: nat, n: nat)
    requires n > 0
    ensures m - n < m / n * n <= m
  {
    assert m == m / n * n + m % n;
  }

  lemma WholeIsCommon(a: string)
    requires |a| >= SHORTEST
    ensures Longest(a, a, |a|) == Some(Cut(|a|, 0, 0))
  {
    var whole := a[0..|a|];
    assert whole == a;
    assert OccursAt(a, whole, 0);
    assert Find(a, whole, 0) == Some(0);
  }

  /** A statement covers itself fully exactly when it is not shorter than the shortest stretch that counts; a shorter
      one scores zero against everything. */
  lemma SelfEvaluation(a: string, b: string)
    requires a != ""
    ensures PairEvaluation(a, a) == 100 <==> |a| >= 3
    ensures |a| < 3 ==> PairEvaluation(a, b) == 0
  {
    if |a| >= SHORTEST {
      hide Longest;
      WholeIsCommon(a);
      assert Without(a, 0, |a|) == "";
      NothingLeft(|a|);
      EvaluationIsPercentage(a, a);
    }
  }

  lemma NothingLeft(score: nat)
    ensures Compare("", "", score) == (score, "", "")
  {
  }

  /** Below its cap of 200 characters the database generator scores a pair zero exactly when no three characters in a
      row are shared; above the cap it scores every pair zero. */
  lemma DatabaseScores(a: string, b: string)
    requires a != ""
    ensures 0 <= DatabaseEvaluation(a, b) <= 100
    ensures DatabaseEvaluation(a, b) > 0 <==> |a| <= 200 && |b| <= 200 && Share(a, b, 3)
  {
    hide Compare, Share;
    EvaluationIsPercentage(a, b);
    SharedScores(a, b);
    var score := Compare(a, b, 0).0;
    if |a| <= 200 && score >= 3 {
      assert score * 100 >= |a|;
    }
  }

  lemma SharedScores(a: string, b: string)
    ensures Share(a, b, SHORTEST) ==> Compare(a, b, 0).0 >= 3
    ensures !Share(a, b, SHORTEST) ==> Compare(a, b, 0).0 == 0
  {
    hide Longest, Without, Share;
    CutIsLongest(a, b);
    match Longest(a, b, |a|)
    case None =>
    case Some(c) => CompareCounts(Without(a, c.i, c.n), Without(b, c.j, c.n), c.n);
  }

  // ----- the code, on strings that it changes in place -----

  class Text {
    var s: string

    constructor (s: string)
      ensures this.s == s
    {
      this.s := s;
    }
  }

  method DeleteLongestCommonSubstr(p: Text, q: Text) returns (length: int)
    requires p != q
    modifies p, q
    ensures match Longest(old(p.s), old(q.s), |old(p.s)|)
            case None => length == -1 && p.s == old(p.s) && q.s == old(q.s)
            case Some(c) =>
              length == c.n && p.s == Without(old(p.s), c.i, c.n) && q.s == Without(old(q.s), c.j, c.n)
  {
    var len := |p.s|;
    var sublen := len;
    while sublen >= SHORTEST
      invariant p.s == old(p.s) && q.s == old(q.s) && 0 <= sublen <= len
      invariant Longest(p.s, q.s, len) == Longest(p.s, q.s, sublen)
      decreases sublen
    {
      var i := 0;
      while i <= len - sublen
        invariant p.s == old(p.s) && q.s == old(q.s) && 0 <= i
        invariant FirstCommon(p.s, q.s, sublen, 0) == FirstCommon(p.s, q.s, sublen, i)
      {
        var found := Find(q.s, p.s[i..i + sublen], 0);
        if found.Some? {
          q.s := Without(q.s, found.value, sublen);
          p.s := Without(p.s, i, sublen);
          return sublen;
        }
        i := i + 1;
      }
      sublen := sublen - 1;
    }
    length := -1;
  }

  method CompareTexts(p: Text, q: Text, score: nat) returns (r: nat)
    requires p != q
    modifies p, q
    ensures (r, p.s, q.s) == Compare(old(p.s), old(q.s), score)
    decreases |p.s|
  {
    var n := DeleteLongestCommonSubstr(p, q);
    if n != -1 {
      r := CompareTexts(p, q, score + n);
    } else {
      r := score;
    }
  }

  method EvaluateTexts(a: string, b: string) returns (score: nat)
    requires a != ""
    ensures score == PairEvaluation(a, b)
  {
    hide Compare;
    var p := new Text(a);
    var q := new Text(b);
    var n := CompareTexts(p, q, 0);
    score := n * 100 / |a|;
  }

  /** The score is a percentage. It is positive exactly when both texts are within the cap and share three characters in
      a row; an empty first text is no trouble behind a second one above the cap. */
  method EvaluateForDatabase(a: string, b: string) returns (score: nat)
    requires a != "" || |b| > 200
    ensures 0 <= score <= 100
    ensures score > 0 <==> |a| <= 200 && |b| <= 200 && Share(a, b, 3)
    ensures score > 0 ==> score == PairEvaluation(a, b)
  {
    hide Compare, Share;
    if |a| > 200 || |b| > 200 {
      return 0;
    }
    DatabaseScores(a, b);
    score := EvaluateTexts(a, b);
  }
}
