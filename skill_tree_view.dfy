/**
 * The counting behind the skill-tree panel: the colour of a skill, the
 * per-tier progress, the overall statistics of the header and the four
 * buckets of the compact progress bar. Rendering is not modelled.
 */
module SkillTreeView {
  import opened Options
  import opened SkillTypes
  import opened Proficiency

  /** The score shown for a skill: none when it has no entry or was never attempted. */
  function ScoreOf(progress: Progress, id: string): Option<int> {
    if id in progress then progress[id].score else None
  }

  /** The panel's own `getSkillColor`. */
  function SkillColor(score: Option<int>): SkillColor {
    if score.None? then Gray
    else if score.value <= RedBand.max then Red
    else if score.value <= YellowBand.max then Yellow
    else Green
  }

  /** The panel colours a skill exactly as the score arithmetic does. */
  lemma SkillColorAgrees(score: Option<int>)
    ensures SkillColor(score) == GetSkillColor(score)
    ensures SkillColor(score) == Gray <==> score.None?
  {
  }

  /** Where the compact progress bar places a skill. */
  datatype Standing = NotStarted | NeedsWork | Learning | Mastered

  function StandingOf(score: Option<int>): Standing {
    if score.None? then NotStarted
    else if score.value >= 70 then Mastered
    else if score.value >= 40 then Learning
    else NeedsWork
  }

  /**
   * For a score in 0..100 the buckets are the colours: not started is gray,
   * needs work red, learning yellow and mastered green.
   */
  lemma StandingMatchesColor(score: Option<int>)
    requires score.Some? ==> 0 <= score.value <= 100
    ensures StandingOf(score) == match SkillColor(score)
      case Gray => NotStarted
      case Red => NeedsWork
      case Yellow => Learning
      case Green => Mastered
  {
  }

  /** The number of skills whose score is set. */
  function CountAttempted(skills: seq<Skill>, progress: Progress): nat {
    if skills == [] then 0
    else
      var last := skills[|skills| - 1];
      CountAttempted(skills[..|skills| - 1], progress) + if ScoreOf(progress, last.id).Some? then 1 else 0
  }

  /** The number of skills whose score is set and at least 70. */
  function CountMastered(skills: seq<Skill>, progress: Progress): nat {
    if skills == [] then 0
    else
      var last := skills[|skills| - 1];
      CountMastered(skills[..|skills| - 1], progress) + if StandingOf(ScoreOf(progress, last.id)) == Mastered then 1 else 0
  }

  /** The number of skills in one bucket of the progress bar. */
  function CountStanding(skills: seq<Skill>, progress: Progress, standing: Standing): nat {
    if skills == [] then 0
    else
      var last := skills[|skills| - 1];
      CountStanding(skills[..|skills| - 1], progress, standing) + if StandingOf(ScoreOf(progress, last.id)) == standing then 1 else 0
  }

  /** The sum of the scores that are set. */
  function SumScores(skills: seq<Skill>, progress: Progress): int {
    if skills == [] then 0
    else
      var score := ScoreOf(progress, skills[|skills| - 1].id);
      SumScores(skills[..|skills| - 1], progress) + score.GetOr(0)
  }

  datatype TierProgress = TierProgress(attempted: nat, mastered: nat, total: nat)

  /** `calculateTierProgress` */
  method CalculateTierProgress(skills: seq<Skill>, progress: Progress) returns (r: TierProgress)
    ensures r == TierProgress(CountAttempted(skills, progress), CountMastered(skills, progress), |skills|)
  {
    var attempted := 0;
    var mastered := 0;
    for k := 0 to |skills|
      invariant attempted == CountAttempted(skills[..k], progress)
      invariant mastered == CountMastered(skills[..k], progress)
    {
      assert skills[..k + 1][..k] == skills[..k];
      var score := ScoreOf(progress, skills[k].id);
      if score.Some? {
        attempted := attempted + 1;
        if score.value >= 70 {
          mastered := mastered + 1;
        }
      }
    }
    assert skills[..|skills|] == skills;
    r := TierProgress(attempted, mastered, |skills|);
  }

  /**
   * Mastered skills are attempted skills, and attempted skills are among
   * the total, so the header's "learning" and "not started" counts
   * (attempted − mastered, total − attempted) are never negative.
   */
  lemma {:induction false} CountsAreNested(skills: seq<Skill>, progress: Progress)
    ensures CountMastered(skills, progress) <= CountAttempted(skills, progress) <= |skills|
  {
    if skills != [] {
      CountsAreNested(skills[..|skills| - 1], progress);
    }
  }

  /** The mastered count is the mastered bucket of the progress bar, and the attempted count covers the three scored buckets. */
  lemma {:induction false} CountsAreBuckets(skills: seq<Skill>, progress: Progress)
    ensures CountMastered(skills, progress) == CountStanding(skills, progress, Mastered)
    ensures CountAttempted(skills, progress) ==
      CountStanding(skills, progress, NeedsWork) + CountStanding(skills, progress, Learning) + CountStanding(skills, progress, Mastered)
  {
    if skills != [] {
      CountsAreBuckets(skills[..|skills| - 1], progress);
    }
  }

  /** Every skill is in exactly one bucket, so the four counts add up to the number of skills. */
  lemma {:induction false} BucketsPartition(skills: seq<Skill>, progress: Progress)
    ensures CountStanding(skills, progress, NotStarted) + CountStanding(skills, progress, NeedsWork) +
      CountStanding(skills, progress, Learning) + CountStanding(skills, progress, Mastered) == |skills|
  {
    if skills != [] {
      BucketsPartition(skills[..|skills| - 1], progress);
    }
  }

  datatype OverallStats = OverallStats(totalSkills: nat, attemptedSkills: nat, masteredSkills: nat, averageScore: real)

  /** The mean of the scores that are set, and 0 when none is. */
  function Average(total: int, count: nat): real {
    if count > 0 then total as real / count as real else 0.0
  }

  /** `overallStats` of the panel, over the catalogue `skills`. */
  method ComputeOverallStats(skills: seq<Skill>, progress: Progress) returns (stats: OverallStats)
    ensures stats.totalSkills == |skills|
    ensures stats.attemptedSkills == CountAttempted(skills, progress)
    ensures stats.masteredSkills == CountMastered(skills, progress)
    ensures stats.averageScore == Average(SumScores(skills, progress), CountAttempted(skills, progress))
  {
    var attempted := 0;
    var mastered := 0;
    var totalScore := 0;
    var scoredCount := 0;
    for k := 0 to |skills|
      invariant attempted == scoredCount == CountAttempted(skills[..k], progress)
      invariant mastered == CountMastered(skills[..k], progress)
      invariant totalScore == SumScores(skills[..k], progress)
    {
      assert skills[..k + 1][..k] == skills[..k];
      var score := ScoreOf(progress, skills[k].id);
      if score.Some? {
        attempted := attempted + 1;
        totalScore := totalScore + score.value;
        scoredCount := scoredCount + 1;
        if score.value >= 70 {
          mastered := mastered + 1;
        }
      }
    }
    assert skills[..|skills|] == skills;
    stats := OverallStats(|skills|, attempted, mastered, Average(totalScore, scoredCount));
  }

  /** All scores that are set lie in 0..100. */
  predicate ScoresValid(skills: seq<Skill>, progress: Progress) {
    forall k :: 0 <= k < |skills| && ScoreOf(progress, skills[k].id).Some? ==>
      0 <= ScoreOf(progress, skills[k].id).value <= 100
  }

  lemma {:induction false} SumScoresBounded(skills: seq<Skill>, progress: Progress)
    requires ScoresValid(skills, progress)
    ensures 0 <= SumScores(skills, progress) <= 100 * CountAttempted(skills, progress)
  {
    if skills != [] {
      var init := skills[..|skills| - 1];
      assert ScoresValid(init, progress) by {
        forall k | 0 <= k < |init| ensures init[k] == skills[k] {}
      }
      SumScoresBounded(init, progress);
      assert ScoreOf(progress, skills[|skills| - 1].id).Some? ==>
        0 <= ScoreOf(progress, skills[|skills| - 1].id).value <= 100;
    }
  }

  /** With valid scores the average shown lies in 0..100; it is 0 when nothing is scored. */
  lemma AverageScoreInRange(skills: seq<Skill>, progress: Progress)
    requires ScoresValid(skills, progress)
    ensures var average := Average(SumScores(skills, progress), CountAttempted(skills, progress));
      && 0.0 <= average <= 100.0
      && (CountAttempted(skills, progress) == 0 ==> average == 0.0)
  {
    SumScoresBounded(skills, progress);
    var count := CountAttempted(skills, progress);
    if count > 0 {
      MeanBounded(SumScores(skills, progress) as real, count as real);
    }
  }

  lemma MeanBounded(sum: real, count: real)
    requires count > 0.0 && 0.0 <= sum <= 100.0 * count
    ensures 0.0 <= sum / count <= 100.0
  {
    var mean := sum / count;
    assert mean * count == sum;
    assert (100.0 - mean) * count == 100.0 * count - sum;
  }

  /** The counts of the compact progress bar. */
  datatype BarCounts = BarCounts(mastered: nat, learning: nat, needsWork: nat, notStarted: nat)

  /** The counting loop of `SkillProgressBar`, over the catalogue `skills`. */
  method ProgressBarCounts(skills: seq<Skill>, progress: Progress) returns (counts: BarCounts)
    ensures counts == BarCounts(
      CountStanding(skills, progress, Mastered), CountStanding(skills, progress, Learning),
      CountStanding(skills, progress, NeedsWork), CountStanding(skills, progress, NotStarted))
  {
    var mastered := 0;
    var learning := 0;
    var needsWork := 0;
    var notStarted := 0;
    for k := 0 to |skills|
      invariant mastered == CountStanding(skills[..k], progress, Mastered)
      invariant learning == CountStanding(skills[..k], progress, Learning)
      invariant needsWork == CountStanding(skills[..k], progress, NeedsWork)
      invariant notStarted == CountStanding(skills[..k], progress, NotStarted)
    {
      assert skills[..k + 1][..k] == skills[..k];
      var score := ScoreOf(progress, skills[k].id);
      if score.None? {
        notStarted := notStarted + 1;
      } else if score.value >= 70 {
        mastered := mastered + 1;
      } else if score.value >= 40 {
        learning := learning + 1;
      } else {
        needsWork := needsWork + 1;
      }
    }
    assert skills[..|skills|] == skills;
    counts := BarCounts(mastered, learning, needsWork, notStarted);
  }
}
