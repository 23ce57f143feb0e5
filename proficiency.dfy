/**
 * Score arithmetic of the skill system: mastery colours, the per-answer score
 * update, the weighted proficiency mean, time decay, badges, the end-of-session
 * summary, the per-answer progress update and the two recommendation lists.
 */
module Proficiency {
  import opened Options
  import opened Seqs
  import opened Records
  import opened SkillTypes
  import opened SkillCatalogue
  import opened SkillDefinitions
  import opened ScoreSort

  // ---------------------------------------------------------------------------
  // Mastery colour

  /** `getSkillColor`: gray until attempted, then red, yellow or green by score. */
  function GetSkillColor(score: Option<int>): (c: SkillColor)
    ensures c == Gray <==> score.None?
    ensures score.Some? && 0 <= score.value <= 100 ==>
      (c == Red <==> RedBand.Contains(score.value)) &&
      (c == Yellow <==> YellowBand.Contains(score.value)) &&
      (c == Green <==> GreenBand.Contains(score.value))
  {
    if score.None? then Gray
    else if score.value <= RedBand.max then Red
    else if score.value <= YellowBand.max then Yellow
    else Green
  }

  /** Out-of-range scores are not rejected: below 0 is red, above 100 is green. */
  lemma ColorOutsideScoreRange(score: int)
    ensures score < 0 ==> GetSkillColor(Some(score)) == Red
    ensures score > 100 ==> GetSkillColor(Some(score)) == Green
  {
  }

  /**
   * The threshold that unlocks dependent skills is the yellow band: a
   * prerequisite counts as met exactly when its colour is yellow or green.
   */
  lemma PrerequisiteThresholdIsYellow(score: Option<int>)
    ensures AtLeastYellow(score) <==> GetSkillColor(score) in {Yellow, Green}
  {
  }

  // ---------------------------------------------------------------------------
  // Score update

  /** The score change of one answer before clamping. */
  function AnswerDelta(wasCorrect: bool, usedHint: bool): (d: int)
    ensures wasCorrect ==> 0 < d <= CorrectAnswer
    ensures !wasCorrect ==> d == WrongAnswer
    ensures wasCorrect && usedHint ==> d < CorrectAnswer
  {
    if wasCorrect then (if usedHint then HintUsed else CorrectAnswer) else WrongAnswer
  }

  /** `Math.max(0, Math.min(100, x))` */
  function ClampScore(x: int): (s: int)
    ensures 0 <= s <= 100
    ensures 0 <= x <= 100 ==> s == x
    ensures x < 0 ==> s == 0
    ensures x > 100 ==> s == 100
  {
    if x < 0 then 0 else if x > 100 then 100 else x
  }

  /** An unattempted skill starts from the neutral score 50. */
  const NeutralScore: int := 50

  /**
   * `updateSkillScore`: move the current score (50 when unattempted) by the
   * answer's delta and clamp the result to 0..100.
   */
  function UpdateSkillScore(current: Option<int>, wasCorrect: bool, usedHint: bool): (s: int)
    ensures 0 <= s <= 100
    ensures var x := current.GetOr(NeutralScore) + AnswerDelta(wasCorrect, usedHint);
      (0 <= x <= 100 ==> s == x) && (x < 0 ==> s == 0) && (x > 100 ==> s == 100)
  {
    ClampScore(current.GetOr(NeutralScore) + AnswerDelta(wasCorrect, usedHint))
  }

  /**
   * From a valid score, a correct answer never lowers the score, a wrong one
   * never raises it, and a hint never earns more than answering unaided.
   */
  lemma UpdateSkillScoreDirection(current: Option<int>, usedHint: bool)
    requires ValidScore(current)
    ensures UpdateSkillScore(current, true, usedHint) >= current.GetOr(NeutralScore)
    ensures UpdateSkillScore(current, false, usedHint) <= current.GetOr(NeutralScore)
    ensures UpdateSkillScore(current, true, true) <= UpdateSkillScore(current, true, false)
  {
  }

  /** A yellow skill answered correctly reaches green; two misses then drop it to yellow. */
  lemma UpdateSkillScoreScenario()
    ensures UpdateSkillScore(Some(65), true, false) == 80
    ensures UpdateSkillScore(Some(80), false, false) == 60
    ensures UpdateSkillScore(None, true, false) == 65
    ensures UpdateSkillScore(Some(10), false, true) == 0
    ensures UpdateSkillScore(Some(95), true, false) == 100
  {
  }

  // ---------------------------------------------------------------------------
  // Proficiency

  /** `progress[id]?.score` is neither null nor undefined. */
  predicate HasScore(progress: Progress, id: string) {
    id in progress && progress[id].score.Some?
  }

  /** The weight of a skill if it is scored, else 0. */
  function CountedWeight(s: Skill, progress: Progress): (w: real)
    ensures w >= 0.0
    ensures w > 0.0 <==> HasScore(progress, s.id)
  {
    if HasScore(progress, s.id) then TierWeight(s.tier) else 0.0
  }

  /** The sum of score times tier weight over the scored skills of `tree`. */
  function WeightedSum(tree: seq<Skill>, progress: Progress): real {
    if tree == [] then 0.0
    else
      var s := tree[|tree| - 1];
      WeightedSum(tree[..|tree| - 1], progress) + Contribution(s, progress)
  }

  /** The score of a skill times its tier weight if it is scored, else 0. */
  function Contribution(s: Skill, progress: Progress): real {
    if HasScore(progress, s.id) then Weighted(progress[s.id].score.value as real, s.tier) else 0.0
  }

  /** `v * TierWeight(tier)`, written per tier so that it stays linear in `v`. */
  function Weighted(v: real, tier: SkillTier): (r: real)
  {
    match tier
    case Foundational => v * 1.0
    case Intermediate => v * 1.5
    case Advanced => v * 2.0
    case Interview => v * 2.5
  }

  /** The sum of the tier weights of the scored skills of `tree`. */
  function TotalWeight(tree: seq<Skill>, progress: Progress): real {
    if tree == [] then 0.0
    else TotalWeight(tree[..|tree| - 1], progress) + CountedWeight(tree[|tree| - 1], progress)
  }

  /** The tier-weighted mean score of the scored skills, 0 when none is scored. */
  function ProficiencyOf(tree: seq<Skill>, progress: Progress): real {
    var w := TotalWeight(tree, progress);
    if w == 0.0 then 0.0 else WeightedSum(tree, progress) / w
  }

  /** Every scored skill of `tree` has a score in lo..hi. */
  ghost predicate ScoresBetween(tree: seq<Skill>, progress: Progress, lo: int, hi: int) {
    forall i :: 0 <= i < |tree| && HasScore(progress, tree[i].id) ==>
      lo <= progress[tree[i].id].score.value <= hi
  }

  /** The total weight is 0 exactly when no skill of `tree` is scored. */
  lemma {:induction false} TotalWeightZero(tree: seq<Skill>, progress: Progress)
    ensures TotalWeight(tree, progress) >= 0.0
    ensures TotalWeight(tree, progress) == 0.0 <==>
      forall i :: 0 <= i < |tree| ==> !HasScore(progress, tree[i].id)
  {
    if tree != [] {
      var init := tree[..|tree| - 1];
      TotalWeightZero(init, progress);
      assert forall i :: 0 <= i < |init| ==> init[i] == tree[i];
    }
  }

  /** The total weight of the scored skills, each weight multiplied by `c`. */
  function ScaledWeight(tree: seq<Skill>, progress: Progress, c: real): real {
    if tree == [] then 0.0
    else
      var s := tree[|tree| - 1];
      ScaledWeight(tree[..|tree| - 1], progress, c) + (if HasScore(progress, s.id) then Weighted(c, s.tier) else 0.0)
  }

  lemma {:induction false} ScaledWeightIsProduct(tree: seq<Skill>, progress: Progress, c: real)
    ensures ScaledWeight(tree, progress, c) == c * TotalWeight(tree, progress)
  {
    if tree != [] {
      var init, s := tree[..|tree| - 1], tree[|tree| - 1];
      ScaledWeightIsProduct(init, progress, c);
      var w := CountedWeight(s, progress);
      assert (if HasScore(progress, s.id) then Weighted(c, s.tier) else 0.0) == c * w;
      DistributeOver(c, TotalWeight(init, progress), w, TotalWeight(tree, progress));
    }
  }

  lemma DistributeOver(c: real, a: real, b: real, t: real)
    requires t == a + b
    ensures c * t == c * a + c * b
  {
  }

  lemma {:induction false} WeightedSumBetween(tree: seq<Skill>, progress: Progress, lo: int, hi: int)
    requires ScoresBetween(tree, progress, lo, hi)
    ensures ScaledWeight(tree, progress, lo as real) <= WeightedSum(tree, progress) <= ScaledWeight(tree, progress, hi as real)
  {
    if tree != [] {
      var init, s := tree[..|tree| - 1], tree[|tree| - 1];
      assert ScoresBetween(init, progress, lo, hi) by {
        assert forall i :: 0 <= i < |init| ==> init[i] == tree[i];
      }
      WeightedSumBetween(init, progress, lo, hi);
    }
  }

  /** A quotient of bounded parts is bounded. */
  lemma MeanBetween(lo: real, hi: real, scaledLo: real, scaledHi: real, ws: real, w: real, mean: real)
    requires w > 0.0 && scaledLo == lo * w && scaledHi == hi * w
    requires scaledLo <= ws <= scaledHi && mean == ws / w
    ensures lo <= mean <= hi
  {
    assert ws == mean * w;
  }

  /**
   * The proficiency is a mean: once some skill is scored, it lies between the
   * lowest and the highest score among the scored skills.
   */
  lemma ProficiencyBetweenScores(tree: seq<Skill>, progress: Progress, lo: int, hi: int)
    requires ScoresBetween(tree, progress, lo, hi)
    requires exists i :: 0 <= i < |tree| && HasScore(progress, tree[i].id)
    ensures lo as real <= ProficiencyOf(tree, progress) <= hi as real
  {
    assert TotalWeight(tree, progress) > 0.0 by {
      TotalWeightZero(tree, progress);
    }
    WeightedSumBetween(tree, progress, lo, hi);
    ScaledWeightIsProduct(tree, progress, lo as real);
    ScaledWeightIsProduct(tree, progress, hi as real);
    MeanBetween(lo as real, hi as real, ScaledWeight(tree, progress, lo as real), ScaledWeight(tree, progress, hi as real),
      WeightedSum(tree, progress), TotalWeight(tree, progress), ProficiencyOf(tree, progress));
  }

  /** With nothing scored the proficiency is 0. */
  lemma ProficiencyOfUnattempted(tree: seq<Skill>, progress: Progress)
    requires forall i :: 0 <= i < |tree| ==> !HasScore(progress, tree[i].id)
    ensures ProficiencyOf(tree, progress) == 0.0
  {
    TotalWeightZero(tree, progress);
  }

  /** With valid scores the proficiency lies in 0..100. */
  lemma ProficiencyInRange(tree: seq<Skill>, progress: Progress)
    requires ScoresInRange(progress)
    ensures 0.0 <= ProficiencyOf(tree, progress) <= 100.0
  {
    if exists i :: 0 <= i < |tree| && HasScore(progress, tree[i].id) {
      ProficiencyBetweenScores(tree, progress, 0, 100);
    } else {
      ProficiencyOfUnattempted(tree, progress);
    }
  }

  /** Progress entries for ids outside the catalogue do not affect the proficiency. */
  lemma {:induction false} ProficiencyIgnoresOtherIds(tree: seq<Skill>, p1: Progress, p2: Progress)
    requires forall i :: 0 <= i < |tree| ==>
      (tree[i].id in p1 <==> tree[i].id in p2) && (tree[i].id in p1 ==> p1[tree[i].id] == p2[tree[i].id])
    ensures WeightedSum(tree, p1) == WeightedSum(tree, p2)
    ensures TotalWeight(tree, p1) == TotalWeight(tree, p2)
    ensures ProficiencyOf(tree, p1) == ProficiencyOf(tree, p2)
  {
    if tree != [] {
      var init := tree[..|tree| - 1];
      assert forall i :: 0 <= i < |init| ==> init[i] == tree[i];
      ProficiencyIgnoresOtherIds(init, p1, p2);
    }
  }

  /** `calculateProficiency`: the weighted mean over the catalogue, in 0..100 for valid scores. */
  method CalculateProficiency(progress: Progress) returns (proficiency: real)
    ensures proficiency == ProficiencyOf(SkillTree, progress)
    ensures ScoresInRange(progress) ==> 0.0 <= proficiency <= 100.0
  {
    proficiency := WeightedMean(SkillTree, progress);
  }

  /** The loop of `calculateProficiency`, over any catalogue. */
  method WeightedMean(tree: seq<Skill>, progress: Progress) returns (proficiency: real)
    ensures proficiency == ProficiencyOf(tree, progress)
    ensures ScoresInRange(progress) ==> 0.0 <= proficiency <= 100.0
  {
    var weightedSum, totalWeight := 0.0, 0.0;
    var i := 0;
    while i < |tree|
      invariant 0 <= i <= |tree|
      invariant weightedSum == WeightedSum(tree[..i], progress)
      invariant totalWeight == TotalWeight(tree[..i], progress)
    {
      var skill := tree[i];
      var weight := TierWeight(skill.tier);
      assert tree[..i + 1][..i] == tree[..i];
      if skill.id in progress && progress[skill.id].score.Some? {
        weightedSum := weightedSum + progress[skill.id].score.value as real * weight;
        totalWeight := totalWeight + weight;
      }
      i := i + 1;
    }
    assert tree[..i] == tree;
    if totalWeight == 0.0 {
      proficiency := 0.0;
    } else {
      proficiency := weightedSum / totalWeight;
    }
    ProficiencyInRangeIf(tree, progress);
  }

  lemma ProficiencyInRangeIf(tree: seq<Skill>, progress: Progress)
    ensures ScoresInRange(progress) ==> 0.0 <= ProficiencyOf(tree, progress) <= 100.0
  {
    if ScoresInRange(progress) {
      ProficiencyInRange(tree, progress);
    }
  }

  // ---------------------------------------------------------------------------
  // Time decay

  /** Milliseconds in a week: 7 * 24 * 60 * 60 * 1000. */
  const WeekMs: int := 604800000

  /** `Math.floor((now - lastPracticed) / WEEK)`; for a positive divisor Dafny's `/` is the floor. */
  function WeeksSince(lastPracticed: int, now: int): (weeks: int)
    ensures weeks * WeekMs <= now - lastPracticed < (weeks + 1) * WeekMs
  {
    (now - lastPracticed) / WeekMs
  }

  /** The entry is scored, was practised, and at least one whole week has passed. */
  predicate Decays(p: SkillProgress, now: int) {
    p.score.Some? && p.lastPracticed.Some? && WeeksSince(p.lastPracticed.value, now) > 0
  }

  /** One entry of `applySkillDecay`: lose 2 points per whole week, floored at 0. */
  function DecayEntry(p: SkillProgress, now: int): (q: SkillProgress)
    ensures q.skillId == p.skillId && q.attempts == p.attempts && q.lastPracticed == p.lastPracticed
    ensures q.score.None? <==> p.score.None?
    ensures !Decays(p, now) ==> q == p
  {
    if p.score.None? || p.lastPracticed.None? then p
    else
      var weeks := WeeksSince(p.lastPracticed.value, now);
      if weeks > 0 then p.(score := Some(Max(0, p.score.value + weeks * TimeDecayPerWeek))) else p
  }

  /** `Math.max(a, b)` */
  function Max(a: int, b: int): (m: int)
    ensures m >= a && m >= b && (m == a || m == b)
  {
    if a >= b then a else b
  }

  /**
   * The decayed score in terms of elapsed time: after `w` whole weeks (and less
   * than `w + 1`), the score drops by `2 * w` and stops at 0; before a whole
   * week has passed nothing changes.
   */
  lemma DecayEntryScore(p: SkillProgress, now: int, w: int)
    requires p.score.Some? && p.lastPracticed.Some?
    requires w * WeekMs <= now - p.lastPracticed.value < (w + 1) * WeekMs
    ensures w <= 0 ==> DecayEntry(p, now) == p
    ensures w > 0 ==>
      DecayEntry(p, now).score == Some(if p.score.value >= 2 * w then p.score.value - 2 * w else 0)
  {
    assert WeeksSince(p.lastPracticed.value, now) == w;
  }

  /** Decay never raises a score and keeps valid scores valid. */
  lemma DecayEntryLowers(p: SkillProgress, now: int)
    requires ValidScore(p.score)
    ensures ValidScore(DecayEntry(p, now).score)
    ensures p.score.Some? ==> DecayEntry(p, now).score.value <= p.score.value
  {
  }

  /** `applySkillDecay` on the whole map. */
  function DecayAll(progress: Progress, now: int): (r: Progress)
    ensures r.Keys == progress.Keys
    ensures forall id :: id in r ==> r[id] == DecayEntry(progress[id], now)
  {
    map id | id in progress :: DecayEntry(progress[id], now)
  }

  /** Decay keeps every score in 0..100 and never raises one. */
  lemma DecayAllKeepsScoresInRange(progress: Progress, now: int)
    requires ScoresInRange(progress)
    ensures ScoresInRange(DecayAll(progress, now))
    ensures forall id :: id in progress && progress[id].score.Some? ==>
      DecayAll(progress, now)[id].score.value <= progress[id].score.value
  {
    forall id | id in progress {
      DecayEntryLowers(progress[id], now);
    }
  }

  /**
   * Decay does not record that it happened (`lastPracticed` stays as it was), so
   * applying it a second time with the same clock decays again: the result is
   * unchanged exactly when every entry that decays has already reached 0.
   */
  lemma DecayTwiceIffFloored(progress: Progress, now: int)
    ensures DecayAll(DecayAll(progress, now), now) == DecayAll(progress, now) <==>
      forall id :: id in progress && Decays(progress[id], now) ==> DecayAll(progress, now)[id].score == Some(0)
  {
    var once := DecayAll(progress, now);
    var twice := DecayAll(once, now);
    if twice == once {
      forall id | id in progress && Decays(progress[id], now)
        ensures once[id].score == Some(0)
      {
        assert twice[id] == once[id];
      }
    }
    if forall id :: id in progress && Decays(progress[id], now) ==> once[id].score == Some(0) {
      forall id | id in once
        ensures twice[id] == once[id]
      {
        if Decays(progress[id], now) {
          assert Decays(once[id], now);
        }
      }
    }
  }

  /** A skill at 60 last practised three weeks ago decays to 54, and a second pass takes it to 48. */
  lemma DecayNotIdempotent()
    ensures var p := map["joins" := SkillProgress("joins", Some(60), 4, Some(0))];
      var now := 3 * WeekMs;
      DecayAll(p, now)["joins"].score == Some(54) &&
      DecayAll(DecayAll(p, now), now)["joins"].score == Some(48)
  {
    var p := map["joins" := SkillProgress("joins", Some(60), 4, Some(0))];
    var now := 3 * WeekMs;
    assert WeeksSince(0, now) == 3;
  }

  /** `applySkillDecay`: the loop over the entries, filling a fresh map. */
  method ApplySkillDecay(progress: Progress, now: int) returns (updated: Progress)
    ensures updated == DecayAll(progress, now)
  {
    updated := map[];
    var pending := progress.Keys;
    while pending != {}
      invariant pending <= progress.Keys
      invariant updated.Keys == progress.Keys - pending
      invariant forall id :: id in updated ==> updated[id] == DecayEntry(progress[id], now)
      decreases |pending|
    {
      var skillId :| skillId in pending;
      var skillProgress := progress[skillId];
      if skillProgress.score.None? || skillProgress.lastPracticed.None? {
        updated := updated[skillId := skillProgress];
      } else {
        var weeksSince := (now - skillProgress.lastPracticed.value) / WeekMs;
        if weeksSince > 0 {
          var decay := weeksSince * TimeDecayPerWeek;
          var newScore := Max(0, skillProgress.score.value + decay);
          updated := updated[skillId := skillProgress.(score := Some(newScore))];
        } else {
          updated := updated[skillId := skillProgress];
        }
      }
      pending := pending - {skillId};
    }
  }

  // ---------------------------------------------------------------------------
  // Badges

  /** A badge is newly earned: its threshold is reached and it is not held yet. */
  predicate Earns(b: Badge, proficiency: real, existing: seq<string>) {
    proficiency >= b.threshold as real && b.id !in existing
  }

  /** The ids of the badges of `catalogue` that are newly earned, in catalogue order. */
  function NewBadgeIds(catalogue: seq<Badge>, proficiency: real, existing: seq<string>): seq<string> {
    if catalogue == [] then []
    else
      var b := catalogue[|catalogue| - 1];
      NewBadgeIds(catalogue[..|catalogue| - 1], proficiency, existing) + (if Earns(b, proficiency, existing) then [b.id] else [])
  }

  /**
   * A badge id is newly earned exactly when some badge of the catalogue with
   * that id has its threshold reached and is not held yet.
   */
  lemma {:induction false} NewBadgeIdsMembers(catalogue: seq<Badge>, proficiency: real, existing: seq<string>)
    ensures forall id :: id in NewBadgeIds(catalogue, proficiency, existing) <==>
      exists i :: 0 <= i < |catalogue| && catalogue[i].id == id && proficiency >= catalogue[i].threshold as real && id !in existing
    ensures forall id :: id in NewBadgeIds(catalogue, proficiency, existing) ==> id !in existing
  {
    if catalogue != [] {
      var init, b := catalogue[..|catalogue| - 1], catalogue[|catalogue| - 1];
      NewBadgeIdsMembers(init, proficiency, existing);
      forall id | id in NewBadgeIds(init, proficiency, existing)
        ensures exists i :: 0 <= i < |catalogue| && catalogue[i].id == id && proficiency >= catalogue[i].threshold as real
      {
        var i :| 0 <= i < |init| && init[i].id == id && proficiency >= init[i].threshold as real;
        assert catalogue[i] == init[i];
      }
      forall id | exists i :: 0 <= i < |catalogue| && catalogue[i].id == id && proficiency >= catalogue[i].threshold as real && id !in existing
        ensures id in NewBadgeIds(catalogue, proficiency, existing)
      {
        var i :| 0 <= i < |catalogue| && catalogue[i].id == id && proficiency >= catalogue[i].threshold as real && id !in existing;
        if i < |init| {
          assert init[i] == catalogue[i];
        }
      }
    }
  }

  /** A higher proficiency earns every badge a lower one earns. */
  lemma NewBadgesMonotone(catalogue: seq<Badge>, low: real, high: real, existing: seq<string>)
    requires low <= high
    ensures forall id :: id in NewBadgeIds(catalogue, low, existing) ==> id in NewBadgeIds(catalogue, high, existing)
  {
    NewBadgeIdsMembers(catalogue, low, existing);
    NewBadgeIdsMembers(catalogue, high, existing);
  }

  /** Once the newly earned badges are held, checking again at the same proficiency earns nothing. */
  lemma NewBadgesSaturate(catalogue: seq<Badge>, proficiency: real, existing: seq<string>)
    ensures NewBadgeIds(catalogue, proficiency, existing + NewBadgeIds(catalogue, proficiency, existing)) == []
  {
    var held := existing + NewBadgeIds(catalogue, proficiency, existing);
    NewBadgeIdsMembers(catalogue, proficiency, existing);
    forall i | 0 <= i < |catalogue| && proficiency >= catalogue[i].threshold as real
      ensures catalogue[i].id in held
    {
      if catalogue[i].id !in existing {
        assert catalogue[i].id in NewBadgeIds(catalogue, proficiency, existing);
      }
    }
    NoNewBadgesWhenAllHeld(catalogue, proficiency, held);
  }

  /** When every reached badge is already held, nothing is newly earned. */
  lemma {:induction false} NoNewBadgesWhenAllHeld(catalogue: seq<Badge>, proficiency: real, existing: seq<string>)
    requires forall i :: 0 <= i < |catalogue| && proficiency >= catalogue[i].threshold as real ==> catalogue[i].id in existing
    ensures NewBadgeIds(catalogue, proficiency, existing) == []
  {
    if catalogue != [] {
      NoNewBadgesWhenAllHeld(catalogue[..|catalogue| - 1], proficiency, existing);
    }
  }

  /** `checkNewBadges`: the newly earned badges of the badge catalogue. */
  method CheckNewBadges(proficiency: real, existingBadges: seq<string>) returns (newBadges: seq<string>)
    ensures newBadges == NewBadgeIds(Badges, proficiency, existingBadges)
  {
    newBadges := CollectNewBadges(Badges, proficiency, existingBadges);
  }

  /** The loop of `checkNewBadges` over any badge catalogue. */
  method CollectNewBadges(catalogue: seq<Badge>, proficiency: real, existingBadges: seq<string>) returns (newBadges: seq<string>)
    ensures newBadges == NewBadgeIds(catalogue, proficiency, existingBadges)
  {
    newBadges := [];
    var i := 0;
    while i < |catalogue|
      invariant 0 <= i <= |catalogue|
      invariant newBadges == NewBadgeIds(catalogue[..i], proficiency, existingBadges)
    {
      var badge := catalogue[i];
      assert catalogue[..i + 1][..i] == catalogue[..i];
      if proficiency >= badge.threshold as real && badge.id !in existingBadges {
        newBadges := newBadges + [badge.id];
      }
      i := i + 1;
    }
    assert catalogue[..i] == catalogue;
  }

  /** `isInterviewPrepUnlocked` */
  function IsInterviewPrepUnlocked(proficiency: real): (unlocked: bool)
    ensures unlocked <==> proficiency >= GreenBand.min as real
  {
    proficiency >= 70.0
  }

  /** Interview prep unlocks exactly when the "Interview Ready" badge is earned from scratch. */
  lemma InterviewPrepMatchesBadge(proficiency: real)
    ensures IsInterviewPrepUnlocked(proficiency) <==> Badges[2].id in NewBadgeIds(Badges, proficiency, [])
    ensures Badges[2].name == "Interview Ready"
  {
    BadgeCatalogueOrdered();
    NewBadgeIdsMembers(Badges, proficiency, []);
    if Badges[2].id in NewBadgeIds(Badges, proficiency, []) {
      var i :| 0 <= i < |Badges| && Badges[i].id == Badges[2].id && proficiency >= Badges[i].threshold as real;
      assert i == 2;
    }
  }

  // ---------------------------------------------------------------------------
  // Session summary

  /** A session delta that counts as a rise (`rising`) or as a fall. */
  predicate Moved(delta: int, rising: bool) {
    if rising then delta > 0 else delta < 0
  }

  /** The keys of the entries of `deltas` that moved in the given direction, in entry order. */
  function MovedIds(deltas: Record<int>, rising: bool): seq<string> {
    if deltas == [] then []
    else
      var e := deltas[|deltas| - 1];
      MovedIds(deltas[..|deltas| - 1], rising) + (if Moved(e.value, rising) then [e.key] else [])
  }

  /** The skills whose accumulated session delta is positive, in entry order. */
  function ImprovedIds(deltas: Record<int>): seq<string> {
    MovedIds(deltas, true)
  }

  /** The skills whose accumulated session delta is negative, in entry order. */
  function DeclinedIds(deltas: Record<int>): seq<string> {
    MovedIds(deltas, false)
  }

  /** With distinct keys, a key is listed exactly when its delta moved in that direction. */
  lemma {:induction false} MovedIdsMembers(deltas: Record<int>, rising: bool, id: string)
    requires DistinctKeys(deltas)
    ensures id in MovedIds(deltas, rising) <==> Get(deltas, id).Some? && Moved(Get(deltas, id).value, rising)
  {
    if deltas != [] {
      var init, e := deltas[..|deltas| - 1], deltas[|deltas| - 1];
      assert deltas == init + [e];
      MovedIdsMembers(init, rising, id);
      GetAppend(init, e, id);
      if e.key == id {
        assert id !in Keys(init) by {
          forall k | 0 <= k < |init| ensures Keys(init)[k] != id {
            assert deltas[k].key != deltas[|deltas| - 1].key;
          }
        }
        GetNone(init, id);
      }
    }
  }

  /**
   * A skill is listed as improved exactly when its delta is positive, as
   * declined exactly when it is negative, and a zero delta lists it nowhere.
   */
  lemma SummaryClassifiesDeltas(deltas: Record<int>, id: string)
    requires DistinctKeys(deltas)
    ensures id in ImprovedIds(deltas) <==> Get(deltas, id).Some? && Get(deltas, id).value > 0
    ensures id in DeclinedIds(deltas) <==> Get(deltas, id).Some? && Get(deltas, id).value < 0
    ensures !(id in ImprovedIds(deltas) && id in DeclinedIds(deltas))
  {
    MovedIdsMembers(deltas, true, id);
    MovedIdsMembers(deltas, false, id);
  }

  /** `getSkillById(id)?.name || id`: a missing skill or an empty name falls back to the id. */
  function FocusName(skill: Option<Skill>, id: string): (name: string)
    ensures name == id || (skill.Some? && name == skill.value.name)
    ensures skill.Some? && skill.value.name != "" ==> name == skill.value.name
  {
    match skill
    case Some(s) => if s.name != "" then s.name else id
    case None => id
  }

  /**
   * The focus suggestion: a declined skill first, else an improved one, else a
   * generic line; skills are named through the lookup in `catalogue`.
   */
  function SuggestedFocus(catalogue: seq<Skill>, improved: seq<string>, declined: seq<string>): (focus: string)
    ensures declined != [] ==>
      focus == "Focus on " + FocusName(FindSkill(catalogue, declined[0]), declined[0]) + " to strengthen your understanding"
    ensures declined == [] && improved != [] ==>
      focus == "Great progress on " + FocusName(FindSkill(catalogue, improved[0]), improved[0]) + "! Keep practicing"
    ensures declined == [] && improved == [] ==> focus == "Keep practicing to improve your SQL skills"
  {
    if |declined| > 0 then "Focus on " + FocusName(FindSkill(catalogue, declined[0]), declined[0]) + " to strengthen your understanding"
    else if |improved| > 0 then "Great progress on " + FocusName(FindSkill(catalogue, improved[0]), improved[0]) + "! Keep practicing"
    else "Keep practicing to improve your SQL skills"
  }

  /**
   * What a session summary reports: the counters as given, the skills whose
   * accumulated delta rose and fell, the change in proficiency, the badges
   * earned at the final proficiency that were not held before, whether
   * interview prep was crossed into (below 70 before, at least 70 after), and
   * the focus text, with skills named through `catalogue`.
   */
  predicate Summarizes(catalogue: seq<Skill>, summary: SessionSummary, sessionSkillDeltas: Record<int>,
                       questionsAttempted: nat, correctCount: nat,
                       beforeProficiency: real, afterProficiency: real, beforeBadges: seq<string>) {
    && summary.questionsAttempted == questionsAttempted && summary.correctCount == correctCount
    && summary.skillsImproved == ImprovedIds(sessionSkillDeltas)
    && summary.skillsDeclined == DeclinedIds(sessionSkillDeltas)
    && summary.proficiencyDelta == afterProficiency - beforeProficiency
    && summary.newBadgesEarned == NewBadgeIds(Badges, afterProficiency, beforeBadges)
    && (summary.interviewPrepUnlocked <==> beforeProficiency < 70.0 <= afterProficiency)
    && summary.suggestedNextFocus == SuggestedFocus(catalogue, summary.skillsImproved, summary.skillsDeclined)
  }

  /**
   * `generateSessionSummary`. The progress snapshots before and after the
   * session are accepted but not used.
   */
  method GenerateSessionSummary(
    sessionSkillDeltas: Record<int>,
    beforeProgress: Progress,
    afterProgress: Progress,
    questionsAttempted: nat,
    correctCount: nat,
    beforeProficiency: real,
    afterProficiency: real,
    beforeBadges: seq<string>)
    returns (summary: SessionSummary)
    ensures Summarizes(SkillTree, summary, sessionSkillDeltas, questionsAttempted, correctCount,
                       beforeProficiency, afterProficiency, beforeBadges)
  {
    summary := SummarizeSession(SkillTree, sessionSkillDeltas, questionsAttempted, correctCount,
      beforeProficiency, afterProficiency, beforeBadges);
  }

  /** The body of `generateSessionSummary`, naming skills through any catalogue. */
  method SummarizeSession(
    catalogue: seq<Skill>,
    sessionSkillDeltas: Record<int>,
    questionsAttempted: nat,
    correctCount: nat,
    beforeProficiency: real,
    afterProficiency: real,
    beforeBadges: seq<string>)
    returns (summary: SessionSummary)
    ensures Summarizes(catalogue, summary, sessionSkillDeltas, questionsAttempted, correctCount,
                       beforeProficiency, afterProficiency, beforeBadges)
  {
    var skillsImproved, skillsDeclined := ClassifyDeltas(sessionSkillDeltas);
    var proficiencyDelta := afterProficiency - beforeProficiency;
    var newBadgesEarned := CheckNewBadges(afterProficiency, beforeBadges);
    var interviewPrepUnlocked := !IsInterviewPrepUnlocked(beforeProficiency) && IsInterviewPrepUnlocked(afterProficiency);

    var suggestedNextFocus := FocusSuggestion(catalogue, skillsImproved, skillsDeclined);

    summary := SessionSummary(questionsAttempted, correctCount, skillsImproved, skillsDeclined,
      proficiencyDelta, newBadgesEarned, interviewPrepUnlocked, suggestedNextFocus);
  }

  /** The loop of `generateSessionSummary` sorting skills into improved and declined. */
  method ClassifyDeltas(sessionSkillDeltas: Record<int>) returns (skillsImproved: seq<string>, skillsDeclined: seq<string>)
    ensures skillsImproved == ImprovedIds(sessionSkillDeltas)
    ensures skillsDeclined == DeclinedIds(sessionSkillDeltas)
  {
    skillsImproved, skillsDeclined := [], [];
    var i := 0;
    while i < |sessionSkillDeltas|
      invariant 0 <= i <= |sessionSkillDeltas|
      invariant skillsImproved == ImprovedIds(sessionSkillDeltas[..i])
      invariant skillsDeclined == DeclinedIds(sessionSkillDeltas[..i])
    {
      var entry := sessionSkillDeltas[i];
      assert sessionSkillDeltas[..i + 1][..i] == sessionSkillDeltas[..i];
      if entry.value > 0 {
        skillsImproved := skillsImproved + [entry.key];
      } else if entry.value < 0 {
        skillsDeclined := skillsDeclined + [entry.key];
      }
      i := i + 1;
    }
    assert sessionSkillDeltas[..i] == sessionSkillDeltas;
  }

  /** The focus text of `generateSessionSummary`. */
  method FocusSuggestion(catalogue: seq<Skill>, skillsImproved: seq<string>, skillsDeclined: seq<string>)
    returns (suggestedNextFocus: string)
    ensures suggestedNextFocus == SuggestedFocus(catalogue, skillsImproved, skillsDeclined)
  {
    suggestedNextFocus := "";
    if |skillsDeclined| > 0 {
      suggestedNextFocus := "Focus on " + FocusName(FindSkill(catalogue, skillsDeclined[0]), skillsDeclined[0]) + " to strengthen your understanding";
    } else if |skillsImproved| > 0 {
      suggestedNextFocus := "Great progress on " + FocusName(FindSkill(catalogue, skillsImproved[0]), skillsImproved[0]) + "! Keep practicing";
    } else {
      suggestedNextFocus := "Keep practicing to improve your SQL skills";
    }
  }

  // ---------------------------------------------------------------------------
  // Initial progress

  /** `initializeSkillProgress`: an unattempted (gray) entry. */
  function InitializeSkillProgress(skillId: string): (p: SkillProgress)
    ensures p.skillId == skillId && p.attempts == 0 && p.lastPracticed.None?
    ensures GetSkillColor(p.score) == Gray
  {
    SkillProgress(skillId, None, 0, None)
  }

  /** One unattempted entry per skill of `tree`. */
  function InitialProgress(tree: seq<Skill>): (progress: Progress)
    ensures progress.Keys == IdsOf(tree)
    ensures forall id :: id in progress ==> progress[id] == InitializeSkillProgress(id)
  {
    map id | id in IdsOf(tree) :: InitializeSkillProgress(id)
  }

  /** Initial progress scores nothing, so its proficiency is 0 and its scores are valid. */
  lemma InitialProgressUnscored(tree: seq<Skill>, catalogue: seq<Skill>)
    ensures ScoresInRange(InitialProgress(tree))
    ensures ProficiencyOf(catalogue, InitialProgress(tree)) == 0.0
  {
    ProficiencyOfUnattempted(catalogue, InitialProgress(tree));
  }

  /** `createInitialProgress` */
  method CreateInitialProgress() returns (progress: Progress)
    ensures progress == InitialProgress(SkillTree)
  {
    progress := InitialProgressFor(SkillTree);
  }

  /** The loop of `createInitialProgress`, over any catalogue. */
  method InitialProgressFor(tree: seq<Skill>) returns (progress: Progress)
    ensures progress == InitialProgress(tree)
  {
    progress := map[];
    var i := 0;
    while i < |tree|
      invariant 0 <= i <= |tree|
      invariant progress == InitialProgress(tree[..i])
    {
      var skill := tree[i];
      assert IdsOf(tree[..i + 1]) == IdsOf(tree[..i]) + {skill.id} by {
        assert tree[..i + 1] == tree[..i] + [skill];
      }
      progress := progress[skill.id := InitializeSkillProgress(skill.id)];
      i := i + 1;
    }
    assert tree[..i] == tree;
  }

  // ---------------------------------------------------------------------------
  // Progress update after an answer

  /** The entry a skill id starts from: its progress, or a fresh one for an unknown id. */
  function CurrentEntry(progress: Progress, skillId: string): (p: SkillProgress)
    ensures skillId in progress ==> p == progress[skillId]
    ensures skillId !in progress ==> p == InitializeSkillProgress(skillId)
  {
    if skillId in progress then progress[skillId] else InitializeSkillProgress(skillId)
  }

  /** The entry after one answer on `skillId`. */
  function AnsweredEntry(progress: Progress, skillId: string, wasCorrect: bool, usedHint: bool, now: int): SkillProgress {
    var current := CurrentEntry(progress, skillId);
    current.(score := Some(UpdateSkillScore(current.score, wasCorrect, usedHint)),
             attempts := current.attempts + 1,
             lastPracticed := Some(now))
  }

  /** The delta recorded for `skillId`: new score minus the old one (50 when unattempted). */
  function RecordedDelta(progress: Progress, skillId: string, wasCorrect: bool, usedHint: bool): int {
    var current := CurrentEntry(progress, skillId);
    UpdateSkillScore(current.score, wasCorrect, usedHint) - current.score.GetOr(NeutralScore)
  }

  datatype AnswerUpdate = AnswerUpdate(newProgress: Progress, deltas: Record<int>)

  /** One iteration of `updateProgressAfterAnswer`: update the entry of `skillId` and record its delta. */
  function AnswerStep(u: AnswerUpdate, skillId: string, wasCorrect: bool, usedHint: bool, now: int): AnswerUpdate {
    AnswerUpdate(
      u.newProgress[skillId := AnsweredEntry(u.newProgress, skillId, wasCorrect, usedHint, now)],
      Put(u.deltas, skillId, RecordedDelta(u.newProgress, skillId, wasCorrect, usedHint)))
  }

  /** An iteration written out field by field on copies of the progress and the deltas is the step. */
  lemma AnswerStepIs(u: AnswerUpdate, progress: Progress, deltas: Record<int>, skillId: string,
                     wasCorrect: bool, usedHint: bool, now: int, entry: SkillProgress, delta: int)
    requires progress == u.newProgress && deltas == u.deltas
    requires entry == AnsweredEntry(progress, skillId, wasCorrect, usedHint, now)
    requires delta == RecordedDelta(progress, skillId, wasCorrect, usedHint)
    ensures AnswerStep(u, skillId, wasCorrect, usedHint, now).newProgress == progress[skillId := entry]
    ensures AnswerStep(u, skillId, wasCorrect, usedHint, now).deltas == Put(deltas, skillId, delta)
  {
  }

  /** What one iteration changes: the entry and the delta of `skillId`, and nothing else. */
  lemma AnswerStepEffect(u: AnswerUpdate, skillId: string, wasCorrect: bool, usedHint: bool, now: int)
    ensures var v := AnswerStep(u, skillId, wasCorrect, usedHint, now);
      v.newProgress.Keys == u.newProgress.Keys + {skillId} &&
      (forall id :: id in u.newProgress && id != skillId ==> v.newProgress[id] == u.newProgress[id]) &&
      (forall id :: id != skillId ==> Get(v.deltas, id) == Get(u.deltas, id)) &&
      Get(v.deltas, skillId) == Some(RecordedDelta(u.newProgress, skillId, wasCorrect, usedHint)) &&
      (forall id :: id in Keys(v.deltas) <==> id in Keys(u.deltas) || id == skillId) &&
      (DistinctKeys(u.deltas) ==> DistinctKeys(v.deltas))
  {
    var delta := RecordedDelta(u.newProgress, skillId, wasCorrect, usedHint);
    forall id ensures Get(Put(u.deltas, skillId, delta), id) == if id == skillId then Some(delta) else Get(u.deltas, id) {
      PutGet(u.deltas, skillId, delta, id);
    }
    PutKeys(u.deltas, skillId, delta);
    if DistinctKeys(u.deltas) {
      PutKeepsKeysDistinct(u.deltas, skillId, delta);
    }
  }

  /** `updateProgressAfterAnswer` on the named skills in order; a repeated id is updated again. */
  function ApplyAnswer(progress: Progress, skillIds: seq<string>, wasCorrect: bool, usedHint: bool, now: int): AnswerUpdate
  {
    if skillIds == [] then AnswerUpdate(progress, [])
    else
      AnswerStep(ApplyAnswer(progress, skillIds[..|skillIds| - 1], wasCorrect, usedHint, now),
        skillIds[|skillIds| - 1], wasCorrect, usedHint, now)
  }

  /**
   * The keys after an answer: the old keys plus every named id (unknown ids
   * are created); the delta record has one key per distinct named id. Entries
   * of ids that are not named are unchanged.
   */
  lemma {:induction false} ApplyAnswerKeys(progress: Progress, skillIds: seq<string>, wasCorrect: bool, usedHint: bool, now: int)
    ensures ApplyAnswer(progress, skillIds, wasCorrect, usedHint, now).newProgress.Keys ==
      progress.Keys + (set id | id in skillIds)
    ensures forall id :: id in Keys(ApplyAnswer(progress, skillIds, wasCorrect, usedHint, now).deltas) <==> id in skillIds
    ensures DistinctKeys(ApplyAnswer(progress, skillIds, wasCorrect, usedHint, now).deltas)
    ensures forall id :: id in progress && id !in skillIds ==>
      ApplyAnswer(progress, skillIds, wasCorrect, usedHint, now).newProgress[id] == progress[id]
  {
    if skillIds != [] {
      var init, skillId := skillIds[..|skillIds| - 1], skillIds[|skillIds| - 1];
      assert skillIds == init + [skillId];
      var previous := ApplyAnswer(progress, init, wasCorrect, usedHint, now);
      assert ApplyAnswer(progress, skillIds, wasCorrect, usedHint, now) == AnswerStep(previous, skillId, wasCorrect, usedHint, now);
      ApplyAnswerKeys(progress, init, wasCorrect, usedHint, now);
      AnswerStepEffect(previous, skillId, wasCorrect, usedHint, now);
    }
  }

  /** Each named id is attempted once more per occurrence, was practised `now` and keeps its `skillId` field. */
  lemma {:induction false} ApplyAnswerAttempts(progress: Progress, skillIds: seq<string>, wasCorrect: bool, usedHint: bool, now: int)
    ensures forall id :: id in skillIds ==>
      id in ApplyAnswer(progress, skillIds, wasCorrect, usedHint, now).newProgress &&
      AttemptedNow(ApplyAnswer(progress, skillIds, wasCorrect, usedHint, now).newProgress[id],
        CurrentEntry(progress, id), multiset(skillIds)[id], now)
  {
    if skillIds != [] {
      var init, skillId := skillIds[..|skillIds| - 1], skillIds[|skillIds| - 1];
      assert skillIds == init + [skillId];
      var previous := ApplyAnswer(progress, init, wasCorrect, usedHint, now);
      var r := AnswerStep(previous, skillId, wasCorrect, usedHint, now);
      assert ApplyAnswer(progress, skillIds, wasCorrect, usedHint, now) == r;
      ApplyAnswerAttempts(progress, init, wasCorrect, usedHint, now);
      ApplyAnswerKeys(progress, init, wasCorrect, usedHint, now);
      AnswerStepEffect(previous, skillId, wasCorrect, usedHint, now);
      forall id | id in skillIds
        ensures id in r.newProgress && AttemptedNow(r.newProgress[id], CurrentEntry(progress, id), multiset(skillIds)[id], now)
      {
        if id == skillId {
          if id in init {
            assert AttemptedNow(previous.newProgress[id], CurrentEntry(progress, id), multiset(init)[id], now);
          } else {
            assert CurrentEntry(previous.newProgress, id) == CurrentEntry(progress, id);
          }
        } else {
          assert id in init;
        }
      }
    }
  }

  /** `entry` is `before` attempted `times` more times, last at `now`, with a score. */
  predicate AttemptedNow(entry: SkillProgress, before: SkillProgress, times: nat, now: int) {
    entry.attempts == before.attempts + times && entry.skillId == before.skillId &&
    entry.lastPracticed == Some(now) && entry.score.Some?
  }

  /**
   * With valid scores before, all scores stay valid and every recorded delta
   * lies between the wrong-answer penalty and the correct-answer reward.
   */
  lemma {:induction false} ApplyAnswerBounds(progress: Progress, skillIds: seq<string>, wasCorrect: bool, usedHint: bool, now: int)
    requires ScoresInRange(progress)
    ensures ScoresInRange(ApplyAnswer(progress, skillIds, wasCorrect, usedHint, now).newProgress)
    ensures forall id :: id in skillIds ==> DeltaWithinRules(Get(ApplyAnswer(progress, skillIds, wasCorrect, usedHint, now).deltas, id))
  {
    if skillIds != [] {
      var init, skillId := skillIds[..|skillIds| - 1], skillIds[|skillIds| - 1];
      assert skillIds == init + [skillId];
      var previous := ApplyAnswer(progress, init, wasCorrect, usedHint, now);
      var r := AnswerStep(previous, skillId, wasCorrect, usedHint, now);
      assert ApplyAnswer(progress, skillIds, wasCorrect, usedHint, now) == r;
      ApplyAnswerBounds(progress, init, wasCorrect, usedHint, now);
      AnswerStepEffect(previous, skillId, wasCorrect, usedHint, now);
      assert ValidScore(CurrentEntry(previous.newProgress, skillId).score);
      forall id | id in skillIds
        ensures DeltaWithinRules(Get(r.deltas, id))
      {
        if id != skillId {
          assert id in init;
        }
      }
    }
  }

  /** A recorded delta exists and lies between the wrong-answer penalty and the correct-answer reward. */
  predicate DeltaWithinRules(delta: Option<int>) {
    delta.Some? && WrongAnswer <= delta.value <= CorrectAnswer
  }

  /**
   * When the named ids are distinct, each one's new score is the score update
   * of its old score, and its recorded delta is the difference.
   */
  lemma {:induction false} ApplyAnswerDistinct(progress: Progress, skillIds: seq<string>, wasCorrect: bool, usedHint: bool, now: int)
    requires NoDuplicates(skillIds)
    ensures forall id :: id in skillIds ==>
      id in ApplyAnswer(progress, skillIds, wasCorrect, usedHint, now).newProgress &&
      ScoredOnce(ApplyAnswer(progress, skillIds, wasCorrect, usedHint, now).newProgress[id].score,
        Get(ApplyAnswer(progress, skillIds, wasCorrect, usedHint, now).deltas, id),
        CurrentEntry(progress, id).score, wasCorrect, usedHint)
  {
    if skillIds != [] {
      var init, skillId := skillIds[..|skillIds| - 1], skillIds[|skillIds| - 1];
      assert skillIds == init + [skillId];
      assert NoDuplicates(init);
      assert skillId !in init;
      var previous := ApplyAnswer(progress, init, wasCorrect, usedHint, now);
      var r := AnswerStep(previous, skillId, wasCorrect, usedHint, now);
      assert ApplyAnswer(progress, skillIds, wasCorrect, usedHint, now) == r;
      AnswerStepEffect(previous, skillId, wasCorrect, usedHint, now);
      assert CurrentEntry(previous.newProgress, skillId) == CurrentEntry(progress, skillId) by {
        ApplyAnswerKeys(progress, init, wasCorrect, usedHint, now);
      }
      ApplyAnswerDistinct(progress, init, wasCorrect, usedHint, now);
      forall id | id in skillIds
        ensures id in r.newProgress && ScoredOnce(r.newProgress[id].score, Get(r.deltas, id), CurrentEntry(progress, id).score, wasCorrect, usedHint)
      {
        if id != skillId {
          assert id in init;
        }
      }
    }
  }

  /** The score is the update of `before`, and the delta is the difference from `before` (50 when unattempted). */
  predicate ScoredOnce(score: Option<int>, delta: Option<int>, before: Option<int>, wasCorrect: bool, usedHint: bool) {
    var s := UpdateSkillScore(before, wasCorrect, usedHint);
    score == Some(s) && delta == Some(s - before.GetOr(NeutralScore))
  }

  /** `updateProgressAfterAnswer`: copy the map, then update each named skill and its delta in turn. */
  method UpdateProgressAfterAnswer(progress: Progress, skillIds: seq<string>, wasCorrect: bool, usedHint: bool, now: int)
    returns (newProgress: Progress, deltas: Record<int>)
    ensures AnswerUpdate(newProgress, deltas) == ApplyAnswer(progress, skillIds, wasCorrect, usedHint, now)
  {
    newProgress := progress;
    deltas := [];
    var i := 0;
    while i < |skillIds|
      invariant 0 <= i <= |skillIds|
      invariant AnswerUpdate(newProgress, deltas) == ApplyAnswer(progress, skillIds[..i], wasCorrect, usedHint, now)
    {
      assert skillIds[..i + 1][..i] == skillIds[..i];
      newProgress, deltas := AnswerSkill(newProgress, deltas, skillIds[i], wasCorrect, usedHint, now);
      i := i + 1;
    }
    assert skillIds[..i] == skillIds;
  }

  /** The body of the loop of `updateProgressAfterAnswer` for one skill id. */
  method AnswerSkill(progress: Progress, deltas: Record<int>, skillId: string, wasCorrect: bool, usedHint: bool, now: int)
    returns (newProgress: Progress, newDeltas: Record<int>)
    ensures AnswerUpdate(newProgress, newDeltas) == AnswerStep(AnswerUpdate(progress, deltas), skillId, wasCorrect, usedHint, now)
  {
    var currentProgress := CurrentEntry(progress, skillId);
    var oldScore := currentProgress.score;
    var newScore := UpdateSkillScore(oldScore, wasCorrect, usedHint);
    var entry := currentProgress.(score := Some(newScore), attempts := currentProgress.attempts + 1, lastPracticed := Some(now));
    AnswerStepIs(AnswerUpdate(progress, deltas), progress, deltas, skillId, wasCorrect, usedHint, now, entry, newScore - oldScore.GetOr(NeutralScore));
    newProgress := progress[skillId := entry];
    newDeltas := Put(deltas, skillId, newScore - oldScore.GetOr(NeutralScore));
  }

  // ---------------------------------------------------------------------------
  // Skills needing attention

  /** Every element carries the id of a scored skill of `tree` and that skill's score. */
  predicate ScoresOf(tree: seq<Skill>, progress: Progress, s: seq<ScoredSkill>) {
    forall k :: 0 <= k < |s| ==>
      s[k].id in IdsOf(tree) && HasScore(progress, s[k].id) && s[k].score == progress[s[k].id].score.value
  }

  /** The attempted skills of `tree` with their scores, in catalogue order. */
  function ScoredSkills(tree: seq<Skill>, progress: Progress): (r: seq<ScoredSkill>)
    ensures ScoresOf(tree, progress, r)
    ensures forall i :: 0 <= i < |tree| && HasScore(progress, tree[i].id) ==>
      ScoredSkill(tree[i].id, progress[tree[i].id].score.value) in r
    ensures |r| <= |tree|
  {
    if tree == [] then []
    else
      var init, s := tree[..|tree| - 1], tree[|tree| - 1];
      assert forall i :: 0 <= i < |init| ==> init[i] == tree[i];
      ScoredSkills(init, progress) + (if HasScore(progress, s.id) then [ScoredSkill(s.id, progress[s.id].score.value)] else [])
  }

  /** Below the green threshold. */
  predicate BelowGreen(s: ScoredSkill) {
    s.score < GreenBand.min
  }

  function ScoredId(s: ScoredSkill): string {
    s.id
  }

  /**
   * The end index of `slice(0, limit)` on a sequence of length `len`: a
   * negative limit counts from the end, and the end never passes `len`.
   */
  function SliceEnd(len: nat, limit: int): (end: nat)
    ensures end <= len
    ensures limit >= 0 ==> end == if limit <= len then limit else len
    ensures limit < 0 ==> end == if len + limit >= 0 then len + limit else 0
  {
    if limit < 0 then (if len + limit >= 0 then len + limit else 0)
    else if limit <= len then limit else len
  }

  /** Each id names a skill of `tree` that has a score below green. */
  predicate ScoredBelowGreen(tree: seq<Skill>, progress: Progress, ids: seq<string>) {
    forall k :: 0 <= k < |ids| ==>
      ids[k] in IdsOf(tree) && HasScore(progress, ids[k]) && progress[ids[k]].score.value < GreenBand.min
  }

  /** The ids come in ascending order of score. */
  predicate AscendingScores(progress: Progress, ids: seq<string>) {
    forall k, l :: 0 <= k < l < |ids| ==>
      HasScore(progress, ids[k]) && HasScore(progress, ids[l]) &&
      progress[ids[k]].score.value <= progress[ids[l]].score.value
  }

  /**
   * A skill of `tree` below green that is not among `ids` scores at least as
   * much as every returned one, and is only left out when `limit` is smaller
   * than the catalogue.
   */
  predicate LowestFirst(tree: seq<Skill>, progress: Progress, limit: int, ids: seq<string>) {
    forall i :: (0 <= i < |tree| && HasScore(progress, tree[i].id) && tree[i].id !in ids &&
                 progress[tree[i].id].score.value < GreenBand.min) ==>
      limit < |tree| && ScoresAtMost(progress, ids, progress[tree[i].id].score.value)
  }

  /** Every id is scored, at most `bound`. */
  predicate ScoresAtMost(progress: Progress, ids: seq<string>, bound: int) {
    forall k :: 0 <= k < |ids| ==> HasScore(progress, ids[k]) && progress[ids[k]].score.value <= bound
  }

  /** The number of skills of `tree` that are scored below green. */
  function CountBelowGreen(tree: seq<Skill>, progress: Progress): nat {
    if tree == [] then 0
    else
      var s := tree[|tree| - 1];
      CountBelowGreen(tree[..|tree| - 1], progress) +
        if HasScore(progress, s.id) && progress[s.id].score.value < GreenBand.min then 1 else 0
  }

  /** The default limit of `getSkillsNeedingAttention`. */
  const DefaultAttentionLimit: int := 5

  /** `getSkillsNeedingAttention` */
  method GetSkillsNeedingAttention(progress: Progress, limit: int) returns (ids: seq<string>)
    ensures limit >= 0 ==> |ids| <= limit
    ensures |ids| == SliceEnd(CountBelowGreen(SkillTree, progress), limit)
    ensures NoDuplicates(ids)
    ensures ScoredBelowGreen(SkillTree, progress, ids) && AscendingScores(progress, ids)
    ensures LowestFirst(SkillTree, progress, limit, ids)
  {
    SkillTreeIdsUnique();
    ids := LowestScored(SkillTree, progress, limit);
  }

  /**
   * The body of `getSkillsNeedingAttention` over any catalogue: collect the
   * scored skills, sort them by score, keep those below green, take
   * `slice(0, limit)` and return their ids.
   */
  method LowestScored(tree: seq<Skill>, progress: Progress, limit: int) returns (ids: seq<string>)
    ensures limit >= 0 ==> |ids| <= limit
    ensures |ids| == SliceEnd(CountBelowGreen(tree, progress), limit)
    ensures UniqueIds(tree) ==> NoDuplicates(ids)
    ensures ScoredBelowGreen(tree, progress, ids) && AscendingScores(progress, ids)
    ensures LowestFirst(tree, progress, limit, ids)
  {
    var scored := CollectScored(tree, progress);
    var a := new ScoredSkill[|scored|](k requires 0 <= k < |scored| => scored[k]);
    assert a[..] == scored;
    SortByScore(a);
    var sorted := a[..];
    SortedKeepsScores(tree, progress, scored, sorted);

    var below := Filter(BelowGreen, sorted);
    FilterKeepsSorted(BelowGreen, sorted);
    var kept := below[..SliceEnd(|below|, limit)];
    ids := Map(ScoredId, kept);
    KeptAreLowScored(tree, progress, limit, sorted, below, kept, ids);
    SkippedScoreHigher(tree, progress, limit, scored, sorted, below, kept, ids);
    KeptAreAllThatFit(tree, progress, limit, scored, sorted, below, kept, ids);
  }

  /** The loop of `getSkillsNeedingAttention` that collects the scored skills. */
  method CollectScored(tree: seq<Skill>, progress: Progress) returns (scored: seq<ScoredSkill>)
    ensures scored == ScoredSkills(tree, progress)
  {
    scored := [];
    for i := 0 to |tree|
      invariant scored == ScoredSkills(tree[..i], progress)
    {
      var skill := tree[i];
      assert tree[..i + 1][..i] == tree[..i];
      if skill.id in progress && progress[skill.id].score.Some? {
        scored := scored + [ScoredSkill(skill.id, progress[skill.id].score.value)];
      }
    }
    assert tree[..|tree|] == tree;
  }

  /** A permutation of the scored skills still pairs each id with its score. */
  lemma SortedKeepsScores(tree: seq<Skill>, progress: Progress, scored: seq<ScoredSkill>, sorted: seq<ScoredSkill>)
    requires ScoresOf(tree, progress, scored)
    requires multiset(sorted) == multiset(scored)
    ensures ScoresOf(tree, progress, sorted)
  {
    forall k | 0 <= k < |sorted|
      ensures sorted[k].id in IdsOf(tree) && HasScore(progress, sorted[k].id) && sorted[k].score == progress[sorted[k].id].score.value
    {
      assert sorted[k] in multiset(scored);
    }
  }

  /** The returned ids are scored below green, in ascending order, and at most `limit` of them. */
  lemma KeptAreLowScored(tree: seq<Skill>, progress: Progress, limit: int,
                         sorted: seq<ScoredSkill>, below: seq<ScoredSkill>,
                         kept: seq<ScoredSkill>, ids: seq<string>)
    requires ScoresOf(tree, progress, sorted)
    requires below == Filter(BelowGreen, sorted) && SortedByScore(below)
    requires kept == below[..SliceEnd(|below|, limit)] && ids == Map(ScoredId, kept)
    ensures limit >= 0 ==> |ids| <= limit
    ensures ScoredBelowGreen(tree, progress, ids) && AscendingScores(progress, ids)
  {
    forall k | 0 <= k < |ids|
      ensures ids[k] in IdsOf(tree) && HasScore(progress, ids[k]) && progress[ids[k]].score.value < GreenBand.min
      ensures ids[k] == below[k].id && progress[ids[k]].score.value == below[k].score
    {
      assert kept[k] == below[k];
      assert below[k] in sorted;
    }
  }

  /** A skill below green that was cut off by the limit scores at least as much as every kept one. */
  lemma SkippedScoreHigher(tree: seq<Skill>, progress: Progress, limit: int,
                           scored: seq<ScoredSkill>, sorted: seq<ScoredSkill>, below: seq<ScoredSkill>,
                           kept: seq<ScoredSkill>, ids: seq<string>)
    requires scored == ScoredSkills(tree, progress)
    requires multiset(sorted) == multiset(scored)
    requires below == Filter(BelowGreen, sorted) && SortedByScore(below)
    requires kept == below[..SliceEnd(|below|, limit)] && ids == Map(ScoredId, kept)
    requires ScoredBelowGreen(tree, progress, ids)
    requires forall k :: 0 <= k < |ids| ==> progress[ids[k]].score.value == below[k].score
    ensures LowestFirst(tree, progress, limit, ids)
  {
    forall i | 0 <= i < |tree| && HasScore(progress, tree[i].id) && tree[i].id !in ids &&
      progress[tree[i].id].score.value < GreenBand.min
      ensures limit < |tree|
      ensures ScoresAtMost(progress, ids, progress[tree[i].id].score.value)
    {
      var x := ScoredSkill(tree[i].id, progress[tree[i].id].score.value);
      assert x in below by {
        assert x in multiset(scored);
      }
      var j := IndexOf(below, x);
      assert |kept| <= j;
      assert |below| <= |tree| by {
        assert |sorted| == |multiset(scored)|;
      }
      forall k | 0 <= k < |ids| ensures progress[ids[k]].score.value <= x.score {
        assert below[k].score <= below[j].score;
      }
    }
  }

  /** Counting the scored skills below green directly agrees with filtering the scored list. */
  lemma {:induction false} CountBelowGreenIsFilter(tree: seq<Skill>, progress: Progress)
    ensures |Filter(BelowGreen, ScoredSkills(tree, progress))| == CountBelowGreen(tree, progress)
  {
    if tree != [] {
      var init, s := tree[..|tree| - 1], tree[|tree| - 1];
      CountBelowGreenIsFilter(init, progress);
      if HasScore(progress, s.id) {
        FilterAppendOne(BelowGreen, ScoredSkills(init, progress), ScoredSkill(s.id, progress[s.id].score.value));
      } else {
        assert ScoredSkills(tree, progress) == ScoredSkills(init, progress);
      }
    }
  }

  /** With distinct catalogue ids the scored list has no duplicates. */
  lemma {:induction false} ScoredSkillsDistinct(tree: seq<Skill>, progress: Progress)
    requires UniqueIds(tree)
    ensures NoDuplicates(ScoredSkills(tree, progress))
  {
    if tree != [] {
      var init, s := tree[..|tree| - 1], tree[|tree| - 1];
      assert UniqueIds(init);
      ScoredSkillsDistinct(init, progress);
      forall k | 0 <= k < |ScoredSkills(init, progress)| ensures ScoredSkills(init, progress)[k].id != s.id {
        var id := ScoredSkills(init, progress)[k].id;
        assert id in IdsOf(init);
        var i :| 0 <= i < |init| && init[i].id == id;
        assert init[i] == tree[i];
      }
    }
  }

  /**
   * The list holds exactly `slice(0, limit)` of the scored skills below
   * green, however many that is, and names no skill twice when the
   * catalogue ids are distinct.
   */
  lemma KeptAreAllThatFit(tree: seq<Skill>, progress: Progress, limit: int,
                          scored: seq<ScoredSkill>, sorted: seq<ScoredSkill>, below: seq<ScoredSkill>,
                          kept: seq<ScoredSkill>, ids: seq<string>)
    requires scored == ScoredSkills(tree, progress)
    requires multiset(sorted) == multiset(scored) && ScoresOf(tree, progress, sorted)
    requires below == Filter(BelowGreen, sorted)
    requires kept == below[..SliceEnd(|below|, limit)] && ids == Map(ScoredId, kept)
    ensures |ids| == SliceEnd(CountBelowGreen(tree, progress), limit)
    ensures UniqueIds(tree) ==> NoDuplicates(ids)
  {
    FilterPermutation(BelowGreen, sorted, scored);
    CountBelowGreenIsFilter(tree, progress);
    if UniqueIds(tree) {
      ScoredSkillsDistinct(tree, progress);
      PermutationNoDuplicates(scored, sorted);
      FilterNoDuplicates(BelowGreen, sorted);
      forall k, l | 0 <= k < l < |ids| ensures ids[k] != ids[l] {
        assert kept[k] == below[k] && kept[l] == below[l];
        assert below[k] in sorted && below[l] in sorted;
      }
    }
  }

  /** An index at which `x` occurs in `s`. */
  lemma IndexOf(s: seq<ScoredSkill>, x: ScoredSkill) returns (j: nat)
    requires x in s
    ensures j < |s| && s[j] == x
  {
    j :| 0 <= j < |s| && s[j] == x;
  }

  // ---------------------------------------------------------------------------
  // Unlocked gray skills

  /** Not yet attempted, and either without prerequisites or with all of them reached. */
  predicate IsUnlockedGray(skill: Skill, progress: Progress) {
    !HasScore(progress, skill.id) &&
    (|skill.prerequisites| == 0 || forall p :: p in skill.prerequisites ==> PrerequisiteReached(progress, p))
  }

  /** The ids of the unlocked gray skills of `tree`, in catalogue order. */
  function UnlockedGrayIds(tree: seq<Skill>, progress: Progress): (ids: seq<string>)
    ensures |ids| <= |tree|
  {
    if tree == [] then []
    else
      var init, s := tree[..|tree| - 1], tree[|tree| - 1];
      UnlockedGrayIds(init, progress) + (if IsUnlockedGray(s, progress) then [s.id] else [])
  }

  /** `getUnlockedGraySkills` */
  method GetUnlockedGraySkills(progress: Progress) returns (unlocked: seq<string>)
    ensures unlocked == UnlockedGrayIds(SkillTree, progress)
  {
    unlocked := CollectUnlockedGray(SkillTree, progress);
  }

  /** The loop of `getUnlockedGraySkills` over any catalogue. */
  method CollectUnlockedGray(tree: seq<Skill>, progress: Progress) returns (unlocked: seq<string>)
    ensures unlocked == UnlockedGrayIds(tree, progress)
  {
    unlocked := [];
    for i := 0 to |tree|
      invariant unlocked == UnlockedGrayIds(tree[..i], progress)
    {
      var skill := tree[i];
      assert tree[..i + 1][..i] == tree[..i];
      var attempted := skill.id in progress && progress[skill.id].score.Some?;
      if !attempted {
        var prereqsMet := AllPrerequisitesReached(skill, progress);
        if |skill.prerequisites| == 0 || prereqsMet {
          unlocked := unlocked + [skill.id];
        }
      }
    }
    assert tree[..|tree|] == tree;
  }

  /** `skill.prerequisites.every(...)` in `getUnlockedGraySkills`. */
  method AllPrerequisitesReached(skill: Skill, progress: Progress) returns (met: bool)
    ensures met <==> forall p :: p in skill.prerequisites ==> PrerequisiteReached(progress, p)
  {
    met := true;
    for k := 0 to |skill.prerequisites|
      invariant met <==> forall m :: 0 <= m < k ==> PrerequisiteReached(progress, skill.prerequisites[m])
    {
      var prereqId := skill.prerequisites[k];
      if !(prereqId in progress && progress[prereqId].score.Some? && progress[prereqId].score.value >= YellowBand.min) {
        met := false;
      }
    }
  }

  /** An id is listed exactly when some skill of `tree` with that id is unlocked and gray. */
  lemma {:induction false} UnlockedGrayMember(tree: seq<Skill>, progress: Progress, id: string)
    ensures id in UnlockedGrayIds(tree, progress) <==>
      exists i :: 0 <= i < |tree| && tree[i].id == id && IsUnlockedGray(tree[i], progress)
  {
    if tree != [] {
      var init, s := tree[..|tree| - 1], tree[|tree| - 1];
      UnlockedGrayMember(init, progress, id);
      if exists i :: 0 <= i < |init| && init[i].id == id && IsUnlockedGray(init[i], progress) {
        var i :| 0 <= i < |init| && init[i].id == id && IsUnlockedGray(init[i], progress);
        assert tree[i] == init[i];
      }
      if exists i :: 0 <= i < |tree| && tree[i].id == id && IsUnlockedGray(tree[i], progress) {
        var i :| 0 <= i < |tree| && tree[i].id == id && IsUnlockedGray(tree[i], progress);
        if i < |init| {
          assert init[i] == tree[i];
        }
      }
    }
  }

  /**
   * On the catalogue, a skill is an unlocked gray skill exactly when it is
   * unattempted and `arePrerequisitesMet` returns true for it. Where that call
   * would throw, the skill is not unlocked.
   */
  lemma UnlockedGrayMatchesPrerequisitesMet(progress: Progress, id: string)
    ensures id in UnlockedGrayIds(SkillTree, progress) <==>
      GetSkillById(id).Some? && !HasScore(progress, id) && ArePrerequisitesMet(id, progress) == Returns(true)
    ensures ArePrerequisitesMet(id, progress).ThrowsTypeError? ==> id !in UnlockedGrayIds(SkillTree, progress)
  {
    UnlockedGrayMember(SkillTree, progress, id);
    GetSkillByIdFindsEachSkill();
  }
}
