/**
 * The data shapes and constants of the skill system: tiers, colours, the score
 * rules, the colour thresholds, the tier weights and the badge catalogue.
 */
module SkillTypes {
  import opened Options

  datatype SkillTier = Foundational | Intermediate | Advanced | Interview

  datatype SkillColor = Gray | Red | Yellow | Green

  /** A SQL concept; `prerequisites` must reach yellow before it unlocks. */
  datatype Skill = Skill(
    id: string,
    name: string,
    tier: SkillTier,
    prerequisites: seq<string>,
    description: string)

  /**
   * Progress on one skill. `score` is None while the skill was never
   * attempted (gray); `lastPracticed` is a time in milliseconds.
   */
  datatype SkillProgress = SkillProgress(
    skillId: string,
    score: Option<int>,
    attempts: nat,
    lastPracticed: Option<int>)

  /** Progress per skill id (`Record<string, SkillProgress>`). */
  type Progress = map<string, SkillProgress>

  /** The summary shown when a practice session ends. */
  datatype SessionSummary = SessionSummary(
    questionsAttempted: nat,
    correctCount: nat,
    skillsImproved: seq<string>,
    skillsDeclined: seq<string>,
    proficiencyDelta: real,
    newBadgesEarned: seq<string>,
    interviewPrepUnlocked: bool,
    suggestedNextFocus: string)

  // Score movement rules.
  const CorrectAnswer: int := 15
  const WrongAnswer: int := -20
  const HintUsed: int := 5
  const TimeDecayPerWeek: int := -2

  /** An inclusive score range. */
  datatype Band = Band(min: int, max: int) {
    predicate Contains(score: int) { min <= score <= max }
  }

  // Score thresholds of the mastery colours.
  const RedBand: Band := Band(0, 39)
  const YellowBand: Band := Band(40, 69)
  const GreenBand: Band := Band(70, 100)

  /** The weight of a tier in the proficiency mean. */
  function TierWeight(tier: SkillTier): (w: real)
    ensures 1.0 <= w <= 2.5
  {
    match tier
    case Foundational => 1.0
    case Intermediate => 1.5
    case Advanced => 2.0
    case Interview => 2.5
  }

  datatype Badge = Badge(id: string, name: string, description: string, threshold: int)

  const Badges: seq<Badge> := [
    Badge("sql_apprentice", "SQL Apprentice", "Reached 30% proficiency", 30),
    Badge("query_builder", "Query Builder", "Reached 50% proficiency", 50),
    Badge("interview_ready", "Interview Ready", "Reached 70% proficiency - Interview Prep Mode unlocked!", 70),
    Badge("sql_expert", "SQL Expert", "Reached 85% proficiency", 85),
    Badge("sql_master", "SQL Master", "Reached 95% proficiency", 95)
  ]

  /** A score is either "never attempted" or lies in 0..100. */
  predicate ValidScore(score: Option<int>) {
    score.Some? ==> 0 <= score.value <= 100
  }

  /** Every score in a progress map is valid. */
  predicate ScoresInRange(progress: Progress) {
    forall id :: id in progress ==> ValidScore(progress[id].score)
  }

  /**
   * A wrong answer costs more than a correct one earns, and a correct answer
   * helped by a hint earns less than one without; unpractised skills lose
   * points every week.
   */
  lemma ScoreRulesAsymmetric()
    ensures CorrectAnswer == 15 && WrongAnswer == -20 && HintUsed == 5 && TimeDecayPerWeek == -2
    ensures -WrongAnswer > CorrectAnswer > HintUsed > 0 > TimeDecayPerWeek
  {
  }

  /**
   * The red, yellow and green bands are contiguous, do not overlap, and
   * together cover exactly the scores 0..100.
   */
  lemma ColorBandsPartitionScores()
    ensures RedBand.min == 0 && RedBand.max + 1 == YellowBand.min
    ensures YellowBand.max + 1 == GreenBand.min && GreenBand.max == 100
    ensures forall s :: 0 <= s <= 100 <==> RedBand.Contains(s) || YellowBand.Contains(s) || GreenBand.Contains(s)
    ensures forall s :: !(RedBand.Contains(s) && YellowBand.Contains(s))
    ensures forall s :: !(YellowBand.Contains(s) && GreenBand.Contains(s))
    ensures forall s :: !(RedBand.Contains(s) && GreenBand.Contains(s))
  {
  }

  /** Deeper tiers weigh strictly more. */
  lemma TierWeightsIncrease()
    ensures 0.0 < TierWeight(Foundational) < TierWeight(Intermediate)
    ensures TierWeight(Intermediate) < TierWeight(Advanced) < TierWeight(Interview)
  {
  }

  /** Badge ids are distinct and thresholds strictly ascend in catalogue order. */
  lemma BadgeCatalogueOrdered()
    ensures |Badges| == 5
    ensures forall i, j :: 0 <= i < j < |Badges| ==> Badges[i].id != Badges[j].id
    ensures forall i, j :: 0 <= i < j < |Badges| ==> Badges[i].threshold < Badges[j].threshold
    ensures [Badges[0].threshold, Badges[1].threshold, Badges[2].threshold, Badges[3].threshold, Badges[4].threshold]
         == [30, 50, 70, 85, 95]
  {
  }
}
