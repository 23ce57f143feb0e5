/** Sorting attempted skills by score, in place, as `getSkillsNeedingAttention` does. */
module ScoreSort {
  import opened Seqs

  /** An attempted skill with its score. */
  datatype ScoredSkill = ScoredSkill(id: string, score: int)

  /** Ascending by score. */
  predicate SortedByScore(s: seq<ScoredSkill>) {
    forall i, j :: 0 <= i < j < |s| ==> s[i].score <= s[j].score
  }

  /** `scored.sort((a, b) => a.score - b.score)`, as an insertion sort. */
  method SortByScore(a: array<ScoredSkill>)
    modifies a
    ensures SortedByScore(a[..])
    ensures multiset(a[..]) == multiset(old(a[..]))
  {
    for i := 0 to a.Length
      invariant SortedByScore(a[..i])
      invariant multiset(a[..]) == multiset(old(a[..]))
    {
      Insert(a, i);
    }
  }

  /** Moves `a[i]` down into the sorted prefix `a[..i]`. */
  method Insert(a: array<ScoredSkill>, i: nat)
    requires i < a.Length && SortedByScore(a[..i])
    modifies a
    ensures SortedByScore(a[..i + 1])
    ensures multiset(a[..]) == multiset(old(a[..]))
  {
    var j := i;
    while j > 0 && a[j - 1].score > a[j].score
      invariant 0 <= j <= i
      invariant forall p, q :: 0 <= p < q <= i && q != j ==> a[p].score <= a[q].score
      invariant forall q :: j < q <= i ==> a[j].score <= a[q].score
      invariant multiset(a[..]) == multiset(old(a[..]))
    {
      ghost var before := a[..];
      a[j - 1], a[j] := a[j], a[j - 1];
      assert a[..] == before[j - 1 := before[j]][j := before[j - 1]];
      j := j - 1;
    }
  }

  /** Filtering keeps a sequence sorted by score. */
  lemma {:induction false} FilterKeepsSorted(p: ScoredSkill -> bool, s: seq<ScoredSkill>)
    requires SortedByScore(s)
    ensures SortedByScore(Filter(p, s))
  {
    if s != [] {
      var init, x := s[..|s| - 1], s[|s| - 1];
      assert SortedByScore(init);
      FilterKeepsSorted(p, init);
      var f := Filter(p, init);
      forall k | 0 <= k < |f| ensures f[k].score <= x.score {
        assert f[k] in init;
      }
    }
  }
}
