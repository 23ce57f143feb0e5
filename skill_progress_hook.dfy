/**
 * The `useSkillProgress` hook, with its `useState` cells read as the fields of
 * one object and its actions as methods on it. Timestamps are milliseconds
 * passed in as `now`; storage is reduced to the record that loading yields.
 */
module SkillProgressHook {
  import opened Options
  import opened Records
  import opened SkillTypes
  import opened SkillDefinitions
  import opened Proficiency

  // ---------------------------------------------------------------------------
  // Loading

  /** The stored JSON object as parsed; each field may be missing or null. */
  datatype StoredJson = StoredJson(progress: Option<Progress>, badges: Option<seq<string>>, lastSessionAt: Option<int>)

  /** What `loadProgress` hands back. */
  datatype LoadedProgress = LoadedProgress(progress: Progress, badges: seq<string>, lastSessionAt: Option<int>)

  /**
   * `loadProgress`. `stored` is `None` when there is no window, nothing
   * stored, or the text does not parse; otherwise missing fields default to
   * an empty progress map, no badges and no last session.
   */
  function LoadProgress(stored: Option<StoredJson>): (loaded: Option<LoadedProgress>)
    ensures stored.None? <==> loaded.None?
    ensures stored.Some? ==>
      && loaded.value.progress == (if stored.value.progress.Some? then stored.value.progress.value else map[])
      && loaded.value.badges == (if stored.value.badges.Some? then stored.value.badges.value else [])
      && loaded.value.lastSessionAt == stored.value.lastSessionAt
  {
    match stored
    case None => None
    case Some(json) => Some(LoadedProgress(json.progress.GetOr(map[]), json.badges.GetOr([]), json.lastSessionAt))
  }

  // ---------------------------------------------------------------------------
  // Session deltas

  /** The sum of two optional deltas, where a missing one counts as 0 and two missing ones stay missing. */
  function AddDeltas(a: Option<int>, b: Option<int>): (sum: Option<int>)
    ensures sum.None? <==> a.None? && b.None?
    ensures sum.Some? ==> sum.value == a.GetOr(0) + b.GetOr(0)
  {
    if a.None? && b.None? then None else Some(a.GetOr(0) + b.GetOr(0))
  }

  /** `updated[skillId] = (updated[skillId] || 0) + delta` for each entry of `deltas`, in order. */
  function MergeDeltas(session: Record<int>, deltas: Record<int>): Record<int>
    decreases deltas
  {
    if deltas == [] then session
    else
      var e := deltas[0];
      MergeDeltas(Put(session, e.key, Get(session, e.key).GetOr(0) + e.value), deltas[1..])
  }

  /** Merging into an object yields an object: keys stay distinct. */
  lemma {:induction false} MergeDeltasDistinct(session: Record<int>, deltas: Record<int>)
    requires DistinctKeys(session)
    ensures DistinctKeys(MergeDeltas(session, deltas))
    decreases deltas
  {
    if deltas != [] {
      var e := deltas[0];
      PutKeepsKeysDistinct(session, e.key, Get(session, e.key).GetOr(0) + e.value);
      MergeDeltasDistinct(Put(session, e.key, Get(session, e.key).GetOr(0) + e.value), deltas[1..]);
    }
  }

  /** Merging adds each answer delta to the session delta of the same skill and keeps the other session deltas. */
  lemma {:induction false} MergeDeltasGet(session: Record<int>, deltas: Record<int>, id: string)
    requires DistinctKeys(deltas)
    ensures Get(MergeDeltas(session, deltas), id) == AddDeltas(Get(session, id), Get(deltas, id))
    decreases deltas
  {
    if deltas != [] {
      var e, rest := deltas[0], deltas[1..];
      var v := Get(session, e.key).GetOr(0) + e.value;
      var next := Put(session, e.key, v);
      assert DistinctKeys(rest);
      MergeDeltasGet(next, rest, id);
      PutGet(session, e.key, v, id);
      if id == e.key {
        assert id !in Keys(rest) by {
          var ks := Keys(rest);
          forall k | 0 <= k < |ks| ensures ks[k] != id {
            assert ks[k] == deltas[k + 1].key;
          }
        }
        GetNone(rest, id);
      }
    }
  }

  /** The loop of `recordAnswer` that folds an answer's deltas into the session deltas. */
  method AccumulateDeltas(prevDeltas: Record<int>, deltas: Record<int>) returns (updated: Record<int>)
    ensures updated == MergeDeltas(prevDeltas, deltas)
    ensures DistinctKeys(prevDeltas) ==> DistinctKeys(updated)
  {
    if DistinctKeys(prevDeltas) {
      MergeDeltasDistinct(prevDeltas, deltas);
    }
    updated := prevDeltas;
    for i := 0 to |deltas|
      invariant MergeDeltas(updated, deltas[i..]) == MergeDeltas(prevDeltas, deltas)
    {
      var skillId, delta := deltas[i].key, deltas[i].value;
      assert deltas[i..][1..] == deltas[i + 1..];
      updated := Put(updated, skillId, Get(updated, skillId).GetOr(0) + delta);
    }
  }

  /**
   * After an answer, each named skill's session delta is its previous session
   * delta (0 if none) plus the delta of this answer; every other session
   * delta is unchanged.
   */
  lemma SessionDeltasAccumulate(session: Record<int>, progress: Progress, skillIds: seq<string>,
                                wasCorrect: bool, usedHint: bool, now: int, id: string)
    ensures var deltas := ApplyAnswer(progress, skillIds, wasCorrect, usedHint, now).deltas;
      var merged := Get(MergeDeltas(session, deltas), id);
      && (id in skillIds ==> Get(deltas, id).Some? && merged.Some? && merged.value == Get(session, id).GetOr(0) + Get(deltas, id).value)
      && (id !in skillIds ==> merged == Get(session, id))
  {
    var deltas := ApplyAnswer(progress, skillIds, wasCorrect, usedHint, now).deltas;
    ApplyAnswerKeys(progress, skillIds, wasCorrect, usedHint, now);
    GetNone(deltas, id);
    MergeDeltasGet(session, deltas, id);
  }

  // ---------------------------------------------------------------------------
  // The hook's state

  class SkillProgressState {
    /** The catalogue the derived values are computed over; the constructor fixes it to `SKILL_TREE`. */
    const tree: seq<Skill>
    var progress: Progress
    var badges: seq<string>
    var lastSessionAt: Option<int>
    var isLoaded: bool
    var sessionStartedAt: Option<int>
    var sessionQuestionsAnswered: nat
    var sessionCorrectCount: nat
    var sessionSkillDeltas: Record<int>
    var preSessionProgress: Option<Progress>
    var preSessionProficiency: real

    /**
     * A session is active exactly when it has a baseline; the session deltas
     * form an object; no more answers are correct than were given.
     */
    ghost predicate Valid()
      reads this`sessionStartedAt, this`preSessionProgress, this`sessionSkillDeltas
      reads this`sessionCorrectCount, this`sessionQuestionsAnswered
    {
      && (sessionStartedAt.Some? <==> preSessionProgress.Some?)
      && DistinctKeys(sessionSkillDeltas)
      && sessionCorrectCount <= sessionQuestionsAnswered
    }

    /** The memoised `proficiency`. */
    function CurrentProficiency(): real
      reads this`progress
    {
      ProficiencyOf(tree, progress)
    }

    /** The memoised `interviewPrepUnlocked`. */
    function InterviewPrepUnlocked(): bool
      reads this
    {
      IsInterviewPrepUnlocked(CurrentProficiency())
    }

    /** The state before mounting: initial progress, nothing held, no session. */
    constructor()
      ensures Valid() && tree == SkillTree
      ensures progress == InitialProgress(SkillTree) && badges == [] && lastSessionAt.None? && !isLoaded
      ensures sessionStartedAt.None? && sessionQuestionsAnswered == 0 && sessionCorrectCount == 0
      ensures sessionSkillDeltas == [] && preSessionProgress.None? && preSessionProficiency == 0.0
    {
      tree := SkillTree;
      var initial := CreateInitialProgress();
      progress := initial;
      badges := [];
      lastSessionAt := None;
      isLoaded := false;
      sessionStartedAt := None;
      sessionQuestionsAnswered := 0;
      sessionCorrectCount := 0;
      sessionSkillDeltas := [];
      preSessionProgress := None;
      preSessionProficiency := 0.0;
    }

    /**
     * The mount effect: a stored record replaces the progress by its decayed
     * form and replaces the badges and last session; without one, the state
     * is kept. Either way the state is marked loaded.
     */
    method Load(stored: Option<StoredJson>, now: int)
      modifies this`progress, this`badges, this`lastSessionAt, this`isLoaded
      ensures isLoaded
      ensures LoadProgress(stored).Some? ==>
        var loaded := LoadProgress(stored).value;
        progress == DecayAll(loaded.progress, now) && badges == loaded.badges && lastSessionAt == loaded.lastSessionAt
      ensures LoadProgress(stored).None? ==>
        progress == old(progress) && badges == old(badges) && lastSessionAt == old(lastSessionAt)
    {
      var loaded := LoadProgress(stored);
      if loaded.Some? {
        var decayedProgress := ApplySkillDecay(loaded.value.progress, now);
        progress := decayedProgress;
        badges := loaded.value.badges;
        lastSessionAt := loaded.value.lastSessionAt;
      }
      isLoaded := true;
    }

    /**
     * `recordAnswer`: applies the answer to the progress, folds its deltas
     * into the session deltas, counts the question (and the correct answer),
     * and appends the badges newly earned at the proficiency of the progress
     * as it was before this answer.
     */
    method RecordAnswer(skillIds: seq<string>, wasCorrect: bool, usedHint: bool, now: int)
      requires Valid()
      modifies this`progress, this`sessionSkillDeltas, this`sessionQuestionsAnswered, this`sessionCorrectCount, this`badges
      ensures Valid()
      ensures var u := ApplyAnswer(old(progress), skillIds, wasCorrect, usedHint, now);
        progress == u.newProgress && sessionSkillDeltas == MergeDeltas(old(sessionSkillDeltas), u.deltas)
      ensures sessionQuestionsAnswered == old(sessionQuestionsAnswered) + 1
      ensures sessionCorrectCount == old(sessionCorrectCount) + (if wasCorrect then 1 else 0)
      ensures badges == old(badges) + NewBadgeIds(Badges, ProficiencyOf(tree, old(progress)), old(badges))
    {
      var staleProficiency := WeightedMean(tree, progress);
      ApplyAnswerToProgress(skillIds, wasCorrect, usedHint, now);

      sessionQuestionsAnswered := sessionQuestionsAnswered + 1;
      if wasCorrect {
        sessionCorrectCount := sessionCorrectCount + 1;
      }

      AwardBadges(staleProficiency);
    }

    /**
     * The `setProgress` updater of `recordAnswer`: the answer applied to the
     * progress, with its deltas folded into the session deltas.
     */
    method ApplyAnswerToProgress(skillIds: seq<string>, wasCorrect: bool, usedHint: bool, now: int)
      requires DistinctKeys(sessionSkillDeltas)
      modifies this`progress, this`sessionSkillDeltas
      ensures DistinctKeys(sessionSkillDeltas)
      ensures var u := ApplyAnswer(old(progress), skillIds, wasCorrect, usedHint, now);
        progress == u.newProgress && sessionSkillDeltas == MergeDeltas(old(sessionSkillDeltas), u.deltas)
    {
      var newProgress, deltas := UpdateProgressAfterAnswer(progress, skillIds, wasCorrect, usedHint, now);
      var updated := AccumulateDeltas(sessionSkillDeltas, deltas);
      progress := newProgress;
      sessionSkillDeltas := updated;
    }

    /** The badge step of `recordAnswer`: append the badges newly earned at `proficiency`, if any. */
    method AwardBadges(proficiency: real)
      modifies this`badges
      ensures badges == old(badges) + NewBadgeIds(Badges, proficiency, old(badges))
    {
      var newBadges := CheckNewBadges(proficiency, badges);
      if |newBadges| > 0 {
        badges := badges + newBadges;
      }
    }

    /** `startSession`: zero the counters and deltas, and take the current progress and proficiency as the baseline. */
    method StartSession(now: int)
      modifies this`sessionStartedAt, this`sessionQuestionsAnswered, this`sessionCorrectCount, this`sessionSkillDeltas
      modifies this`preSessionProgress, this`preSessionProficiency
      ensures Valid()
      ensures sessionStartedAt == Some(now) && sessionQuestionsAnswered == 0 && sessionCorrectCount == 0
      ensures sessionSkillDeltas == []
      ensures preSessionProgress == Some(progress) && preSessionProficiency == ProficiencyOf(tree, progress)
    {
      var proficiency := WeightedMean(tree, progress);
      sessionStartedAt := Some(now);
      sessionQuestionsAnswered := 0;
      sessionCorrectCount := 0;
      sessionSkillDeltas := [];
      preSessionProgress := Some(progress);
      preSessionProficiency := proficiency;
    }

    /**
     * `endSession`: without an active session nothing happens and there is no
     * summary. Otherwise the summary covers the session so far, the last
     * session time is set and the baseline is cleared; the counters and
     * deltas stay for display.
     */
    method EndSession(now: int) returns (summary: Option<SessionSummary>)
      requires Valid()
      modifies this`lastSessionAt, this`sessionStartedAt, this`preSessionProgress, this`preSessionProficiency
      ensures Valid()
      ensures old(sessionStartedAt).None? ==> summary.None? && unchanged(this)
      ensures old(sessionStartedAt).Some? ==>
        && summary.Some?
        && Summarizes(tree, summary.value, sessionSkillDeltas, sessionQuestionsAnswered, sessionCorrectCount,
                      old(preSessionProficiency), ProficiencyOf(tree, progress), badges)
        && lastSessionAt == Some(now) && sessionStartedAt.None? && preSessionProgress.None? && preSessionProficiency == 0.0
    {
      if sessionStartedAt.None? || preSessionProgress.None? {
        return None;
      }
      var proficiency := WeightedMean(tree, progress);
      var s := SummarizeSession(tree, sessionSkillDeltas, sessionQuestionsAnswered, sessionCorrectCount,
        preSessionProficiency, proficiency, badges);
      lastSessionAt := Some(now);
      sessionStartedAt := None;
      preSessionProgress := None;
      preSessionProficiency := 0.0;
      summary := Some(s);
    }

    /** `resetProgress`: back to the initial progress with nothing held and no session. */
    method ResetProgress()
      modifies this`progress, this`badges, this`lastSessionAt, this`sessionStartedAt, this`sessionQuestionsAnswered
      modifies this`sessionCorrectCount, this`sessionSkillDeltas, this`preSessionProgress, this`preSessionProficiency
      ensures Valid()
      ensures progress == InitialProgress(tree) && badges == [] && lastSessionAt.None?
      ensures sessionStartedAt.None? && sessionQuestionsAnswered == 0 && sessionCorrectCount == 0
      ensures sessionSkillDeltas == [] && preSessionProgress.None? && preSessionProficiency == 0.0
    {
      var initial := InitialProgressFor(tree);
      progress := initial;
      badges := [];
      lastSessionAt := None;
      sessionStartedAt := None;
      sessionQuestionsAnswered := 0;
      sessionCorrectCount := 0;
      sessionSkillDeltas := [];
      preSessionProgress := None;
      preSessionProficiency := 0.0;
    }
  }
}
