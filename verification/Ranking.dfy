/** Ranking the candidate pairs of an undo statement. */
module Ranking {
  import opened Basics

  datatype Candidate<T> = Candidate(item: T, score: nat)

  /** The first candidate with the highest score. */
  function BestIndex<T>(cs: seq<Candidate<T>>): (k: nat)
    requires cs != []
    ensures k < |cs|
  {
    if |cs| == 1 then 0
    else
      var k := BestIndex(cs[..|cs|-1]);
      if cs[|cs|-1].score > cs[k].score then |cs| - 1 else k
  }

  lemma {:induction false} BestIsFirstMaximum<T>(cs: seq<Candidate<T>>)
    requires cs != []
    ensures forall i :: 0 <= i < |cs| ==> cs[i].score <= cs[BestIndex(cs)].score
    ensures forall i :: 0 <= i < BestIndex(cs) ==> cs[i].score < cs[BestIndex(cs)].score
  {
    if |cs| > 1 {
      var init := cs[..|cs|-1];
      BestIsFirstMaximum(init);
      assert forall i :: 0 <= i < |init| ==> cs[i] == init[i];
    }
  }

  function Sorted<T>(cs: seq<Candidate<T>>): seq<Candidate<T>>
    decreases |cs|
  {
    if cs == [] then []
    else
      var k := BestIndex(cs);
      [cs[k]] + Sorted(cs[..k] + cs[k + 1..])
  }

  lemma SortedStep<T>(cs: seq<Candidate<T>>)
    requires cs != []
    ensures var k := BestIndex(cs); Sorted(cs) == [cs[k]] + Sorted(cs[..k] + cs[k + 1..])
  {
  }

  predicate Descending<T>(cs: seq<Candidate<T>>) {
    forall i, j :: 0 <= i < j < |cs| ==> cs[i].score >= cs[j].score
  }

  function WithScore<T>(v: nat): Candidate<T> -> bool {
    (c: Candidate<T>) => c.score == v
  }

  lemma {:induction false} SortedBelow<T>(cs: seq<Candidate<T>>, v: nat)
    requires forall i :: 0 <= i < |cs| ==> cs[i].score <= v
    ensures forall i :: 0 <= i < |Sorted(cs)| ==> Sorted(cs)[i].score <= v
    decreases |cs|
  {
    if cs != [] {
      var k := BestIndex(cs);
      var rest := cs[..k] + cs[k + 1..];
      assert forall i :: 0 <= i < |rest| ==> rest[i] == if i < k then cs[i] else cs[i + 1];
      SortedBelow(rest, v);
    }
  }

  lemma {:induction false} NoneWithScore<T>(cs: seq<Candidate<T>>, v: nat)
    requires forall i :: 0 <= i < |cs| ==> cs[i].score != v
    ensures Filter(cs, WithScore(v)) == []
  {
    if cs != [] {
      NoneWithScore(cs[1..], v);
    }
  }

  lemma {:induction false} SortedDescends<T>(cs: seq<Candidate<T>>)
    ensures Descending(Sorted(cs))
    decreases |cs|
  {
    if cs != [] {
      var k := BestIndex(cs);
      var rest := cs[..k] + cs[k + 1..];
      assert forall i :: 0 <= i < |rest| ==> rest[i] == if i < k then cs[i] else cs[i + 1];
      BestIsFirstMaximum(cs);
      SortedDescends(rest);
      SortedBelow(rest, cs[k].score);
    }
  }

  lemma {:induction false} SortedKeepsOrder<T>(cs: seq<Candidate<T>>, v: nat)
    ensures Filter(Sorted(cs), WithScore(v)) == Filter(cs, WithScore(v))
    decreases |cs|
  {
    if cs != [] {
      var k := BestIndex(cs);
      var before, after := cs[..k], cs[k + 1..];
      SortedKeepsOrder(before + after, v);
      BestIsFirstMaximum(cs);
      TakeOut(before, cs[k], after, v);
      assert cs == before + ([cs[k]] + after);
      FilterCons(cs[k], Sorted(before + after), WithScore(v));
    }
  }

  /** Taking out a candidate that no earlier one equals in score takes the first one of its score. */
  lemma TakeOut<T>(before: seq<Candidate<T>>, c: Candidate<T>, after: seq<Candidate<T>>, v: nat)
    requires forall i :: 0 <= i < |before| ==> before[i].score < c.score
    ensures Filter(before + ([c] + after), WithScore(v)) ==
            (if c.score == v then [c] else []) + Filter(before + after, WithScore(v))
  {
    var p := WithScore<T>(v);
    FilterAppend(before, [c] + after, p);
    FilterAppend(before, after, p);
    FilterCons(c, after, p);
    if c.score == v {
      NoneWithScore(before, v);
    }
  }

  /** The ranking is descending, and for every score it lists the candidates with that score in the order they were
      found: it is a stable rearrangement of all candidates, so its head is the first best candidate. */
  lemma SortedIsStable<T>(cs: seq<Candidate<T>>)
    ensures Descending(Sorted(cs))
    ensures forall v {:trigger WithScore<T>(v)} :: Filter(Sorted(cs), WithScore(v)) == Filter(cs, WithScore(v))
    ensures cs != [] ==> Sorted(cs)[0] == cs[BestIndex(cs)]
  {
    SortedDescends(cs);
    forall v: nat {:trigger WithScore<T>(v)} ensures Filter(Sorted(cs), WithScore(v)) == Filter(cs, WithScore(v)) {
      SortedKeepsOrder(cs, v);
    }
  }

  class Ranker<T> {
    var possible: seq<Candidate<T>>
    var sorted: seq<Candidate<T>>

    constructor (possible: seq<Candidate<T>>)
      ensures this.possible == possible && sorted == []
    {
      this.possible, sorted := possible, [];
    }

    /** Moves the candidates over one by one, the best of those left first. */
    method SortPairs()
      modifies this
      ensures possible == [] && sorted == old(sorted) + Sorted(old(possible))
      decreases |possible|
    {
      if possible == [] {
        return;
      }
      var best := FindBest();
      SortedStep(possible);
      hide Sorted, BestIndex;
      sorted := sorted + [possible[best]];
      possible := possible[..best] + possible[best + 1..];
      SortPairs();
    }

    method FindBest() returns (best: nat)
      requires possible != []
      ensures best < |possible| && best == BestIndex(possible)
    {
      var maxScore := 0;
      best := 0;
      for i := 0 to |possible|
        invariant best < |possible|
        invariant i > 0 ==> best == BestIndex(possible[..i])
        invariant i > 0 ==> maxScore == possible[best].score
        invariant i == 0 ==> maxScore == 0 && best == 0
      {
        assert i > 0 ==> possible[..i + 1][..i] == possible[..i];
        if possible[i].score > maxScore {
          maxScore := possible[i].score;
          best := i;
        }
      }
      assert possible[..|possible|] == possible;
    }

    /** The first maximal candidate in the order they were found; undefined when there is no candidate. */
    method PickTheMostProbable() returns (item: T)
      requires sorted != []
      ensures item == sorted[0].item
    {
      item := sorted[0].item;
    }
  }
}
