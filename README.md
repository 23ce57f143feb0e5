# Query Coach skill model

A Dafny model of the skill-tracking core of Query Coach, an SQL tutor. The model covers these parts:

- **The skill types and constants.** The score rules are +15 for a correct answer, +5 for a correct answer with a hint, -20 for a wrong answer and -2 per idle week. There are also the four colour bands, the tier weights, the five badges and the session summary.
- **The catalogue of 26 SQL skills.** Each skill has a tier and a list of prerequisites. The model covers lookups over the catalogue and the validation of prerequisite references.
- **The proficiency arithmetic.** This covers:
  - score updates with clamping to 0..100;
  - the tier-weighted mean;
  - weekly decay;
  - badge awards and the interview-prep unlock;
  - session summaries;
  - initial progress and per-answer updates;
  - the "needs attention" list, built with an in-place sort;
  - the unlocked-gray list.
- **The `useSkillProgress` hook.** It is modelled as a class whose fields are the hook's state. Its methods are the hook's actions: load, record an answer, start a session, end a session, reset.
- **The heuristic question tagger.** Skill rules are applied to a question and its hint, and then the closure rules run. These add aggregations for GROUP BY/HAVING, basic joins for multi-joins, window basics for window analytics or running totals, scalar subqueries for table subqueries, and WHERE filtering from the hint. The tags are then adjusted to the question's difficulty. The batch loop tags every cached question.
- **The parsers of the table browser.** They read the column definitions of a `CREATE TABLE` and the value tuples of an `INSERT`, and build rows with padding.
- **The counting behind the skill-tree panel.** This covers the tier progress, the overall statistics and the buckets of the progress bar.
- **The keyword metrics of the hint evaluator.**

Modules follow the source files:

| module | source |
|---|---|
| `Options`, `Seqs`, `Records`, `Text` | helpers: optional values, filter/map, JavaScript objects as ordered key lists, ASCII lower-casing and trimming |
| `SkillTypes` | lib/types/skills.ts |
| `SkillCatalogue`, `SkillDefinitions` | lib/skills/skill-definitions.ts (generic lookups and validation; the shipped catalogue) |
| `Proficiency`, `ScoreSort` | lib/skills/proficiency.ts |
| `SkillProgressHook` | lib/skills/useSkillProgress.ts |
| `HeuristicTagger` | scripts/tag-questions-heuristic.ts |
| `TableBrowser` | components/TableBrowser.tsx |
| `SkillTreeView` | components/SkillTree.tsx |
| `Evaluator` | evaluation/evaluator.ts |

Conventions:

- **Time** is a number of milliseconds (`now`), passed in by the caller.
- **Progress** is a map from skill id to `SkillProgress`.
- **Objects whose insertion order matters** are `Records.Record`, an ordered list of distinct keys. This applies to the session skill deltas and to table rows.
- **Proficiency** is a real number.
- **Regular expressions** are an abstract predicate `Matcher` over a numbered pattern. The rule table keeps the number of question, hint and exclusion patterns of each skill.

## Model

| member | source | states |
|---|---|---|
| SkillTypes.TierWeight | lib/types/skills.ts:83-88 | every tier weight lies between 1 and 2.5 |
| SkillTypes.ColorBandsPartitionScores | lib/types/skills.ts:74-78 | the red, yellow and green bands are pairwise disjoint, adjacent, and together cover exactly 0..100 |
| SkillTypes.BadgeCatalogueOrdered | lib/types/skills.ts:100-131 | there are five badges with distinct ids and strictly increasing thresholds 30, 50, 70, 85 and 95 |
| SkillCatalogue.FindSkill | lib/skills/skill-definitions.ts:227-229 | the lookup finds nothing exactly when no skill has the id, and otherwise returns a catalogue skill with that id |
| SkillCatalogue.IdsOf | lib/skills/skill-definitions.ts:271-273 | the id set holds exactly the ids of the catalogue's skills |
| SkillCatalogue.DanglingInEmpty | lib/skills/skill-definitions.ts:283-289 | one skill yields no error exactly when every one of its prerequisites is a known id |
| SkillCatalogue.DanglingRefsEmpty | lib/skills/skill-definitions.ts:282-290 | the first n skills yield no error exactly when all their prerequisites are known ids |
| SkillCatalogue.ValidationAcceptsExactlyResolvedTrees | lib/skills/skill-definitions.ts:278-293 | validation reports no error exactly when every prerequisite of every skill names a skill of the catalogue |
| SkillCatalogue.MessagesAppend | lib/skills/skill-definitions.ts:285-287 | the error messages of two error lists are the messages of each, in order |
| SkillCatalogue.CheckPrerequisites | lib/skills/skill-definitions.ts:283-289 | the inner loop emits one message per unknown prerequisite of a skill, in order |
| SkillCatalogue.CheckAllPrerequisites | lib/skills/skill-definitions.ts:282-290 | the outer loop emits the messages of every skill in catalogue order |
| SkillCatalogue.ValidateTree | lib/skills/skill-definitions.ts:278-293 | the result lists the dangling-reference messages, and it is valid exactly when every prerequisite resolves |
| SkillCatalogue.ValidIffNoMessages | lib/skills/skill-definitions.ts:292 | `valid` is "no errors", which holds exactly when every prerequisite resolves |
| SkillCatalogue.FindSkillAt | lib/skills/skill-definitions.ts:227-229 | with distinct ids, looking up the id of the i-th skill returns that skill |
| SkillCatalogue.ListedEarlierResolves | lib/skills/skill-definitions.ts:278-293 | a catalogue that lists every prerequisite before its dependant passes validation |
| SkillCatalogue.ChainDescends | lib/skills/skill-definitions.ts:13-222 | in such a catalogue, a chain of prerequisite steps moves strictly towards the start of the list |
| SkillCatalogue.ListedEarlierIsAcyclic | lib/skills/skill-definitions.ts:13-222 | such a catalogue has no prerequisite cycle |
| SkillCatalogue.ValidationIgnoresCycles | lib/skills/skill-definitions.ts:278-293 | two skills that require each other pass validation: it checks only that references exist |
| SkillDefinitions.GetSkillById | lib/skills/skill-definitions.ts:227-229 | the lookup in the shipped catalogue returns a catalogue skill with the id, or nothing when no skill has it |
| SkillDefinitions.GetSkillsByTier | lib/skills/skill-definitions.ts:234-236 | the result holds exactly the catalogue skills of that tier |
| SkillDefinitions.GetEntrySkills | lib/skills/skill-definitions.ts:241-243 | the result holds exactly the catalogue skills without prerequisites |
| SkillDefinitions.GetDependentSkills | lib/skills/skill-definitions.ts:248-250 | the result holds exactly the catalogue skills that list the id as a prerequisite |
| SkillDefinitions.ArePrerequisitesMet | lib/skills/skill-definitions.ts:255-266 | false for an unknown id and true for a skill without prerequisites; otherwise true exactly when every prerequisite has a score of at least 40, and it throws only when the scan reaches a prerequisite without a progress entry |
| SkillDefinitions.EveryPrerequisiteMet | lib/skills/skill-definitions.ts:262-265 | the left-to-right `every` returns true exactly when every prerequisite is reached, throws exactly when the first prerequisite that is not reached has no progress entry, and returns false exactly when that prerequisite has a score below 40 |
| SkillDefinitions.PrerequisiteScanShortCircuits | lib/skills/skill-definitions.ts:255-266 | multi-joins with basic-joins scored 10 and group-by-having absent gives false without throwing, and with no progress at all it throws |
| SkillDefinitions.GetAllSkillIds | lib/skills/skill-definitions.ts:271-273 | an id is in the set exactly when the lookup finds it |
| SkillDefinitions.SkillTreeIdsUnique | lib/skills/skill-definitions.ts:13-222 | the 26 catalogue ids are pairwise distinct |
| SkillDefinitions.GetSkillByIdFindsEachSkill | lib/skills/skill-definitions.ts:227-229 | looking up any catalogue skill's id returns that skill |
| SkillDefinitions.SkillTreeListedEarlier | lib/skills/skill-definitions.ts:13-222 | every catalogue skill comes after all of its prerequisites |
| SkillDefinitions.SkillTreeAcyclic | lib/skills/skill-definitions.ts:13-222 | no chain of prerequisites in the catalogue leads back to its start |
| SkillDefinitions.ValidateSkillTree | lib/skills/skill-definitions.ts:278-293 | the shipped catalogue validates with no error |
| SkillDefinitions.TiersPartitionCatalogue | lib/skills/skill-definitions.ts:234-236 | the four tier lists together have as many skills as the catalogue |
| SkillDefinitions.TierFiltersPartition | lib/skills/skill-definitions.ts:234-236 | for any skill list, the sizes of the four tier filters add up to its length |
| Proficiency.GetSkillColor | lib/skills/proficiency.ts:21-26 | gray exactly when there is no score; for a score in 0..100, the colour of the band that contains it |
| Proficiency.ColorOutsideScoreRange | lib/skills/proficiency.ts:21-26 | a negative score shows red and one above 100 shows green |
| Proficiency.PrerequisiteThresholdIsYellow | lib/skills/proficiency.ts:326-333 | the prerequisite test "set and at least 40" is "yellow or green" |
| Proficiency.AnswerDelta | lib/skills/proficiency.ts:44-49 | a correct answer gains between 1 and 15, less with a hint; a wrong one loses 20 |
| Proficiency.ClampScore | lib/skills/proficiency.ts:52 | the result lies in 0..100 and equals the input when that is already in range |
| Proficiency.UpdateSkillScore | lib/skills/proficiency.ts:36-53 | the new score is the current score (50 when unset) plus the answer's delta, clamped to 0..100 |
| Proficiency.UpdateSkillScoreDirection | lib/skills/proficiency.ts:36-53 | a correct answer never lowers the score, a wrong one never raises it, and a hint never helps |
| Proficiency.UpdateSkillScoreScenario | lib/skills/proficiency.ts:36-53 | 65 correct gives 80; 80 wrong gives 60; unset correct gives 65; 10 wrong gives 0; 95 correct gives 100 |
| Proficiency.CountedWeight | lib/skills/proficiency.ts:68-75 | a skill weighs in exactly when it has a score |
| Proficiency.TotalWeightZero | lib/skills/proficiency.ts:61-82 | the total weight is never negative, and it is 0 exactly when no catalogue skill is scored |
| Proficiency.ScaledWeightIsProduct | lib/skills/proficiency.ts:61-82 | summing weight times a constant is the constant times the total weight |
| Proficiency.WeightedSumBetween | lib/skills/proficiency.ts:61-82 | with scores between lo and hi, the weighted sum lies between lo and hi times the total weight |
| Proficiency.ProficiencyBetweenScores | lib/skills/proficiency.ts:61-82 | when something is scored, the proficiency lies between the lowest and the highest score |
| Proficiency.ProficiencyOfUnattempted | lib/skills/proficiency.ts:79-81 | with nothing scored, the proficiency is 0 |
| Proficiency.ProficiencyInRange | lib/skills/proficiency.ts:61-82 | with valid scores, the proficiency lies in 0..100 |
| Proficiency.ProficiencyIgnoresOtherIds | lib/skills/proficiency.ts:61-82 | progress entries for ids outside the catalogue do not change the proficiency |
| Proficiency.CalculateProficiency | lib/skills/proficiency.ts:61-82 | the loop computes the weighted mean, which lies in 0..100 when scores are valid |
| Proficiency.WeightedMean | lib/skills/proficiency.ts:61-82 | the same, over any catalogue |
| Proficiency.ProficiencyInRangeIf | lib/skills/proficiency.ts:61-82 | valid scores give a proficiency in 0..100 |
| Proficiency.WeeksSince | lib/skills/proficiency.ts:108-110 | the floor of the elapsed time in weeks |
| Proficiency.DecayEntry | lib/skills/proficiency.ts:92-126 | decay keeps the skill, the attempts and the practice date, keeps "scored" as it was, and leaves entries it does not touch unchanged |
| Proficiency.Max | lib/skills/proficiency.ts:114 | the larger of two integers |
| Proficiency.DecayEntryScore | lib/skills/proficiency.ts:99-122 | after w whole idle weeks, the score drops by 2 per week, floored at 0; under a week nothing changes |
| Proficiency.DecayEntryLowers | lib/skills/proficiency.ts:92-126 | decay never raises a score and keeps a score in 0..100 in range |
| Proficiency.DecayAll | lib/skills/proficiency.ts:92-126 | decay keeps the set of skills and decays each entry on its own |
| Proficiency.DecayAllKeepsScoresInRange | lib/skills/proficiency.ts:92-126 | when scores start in 0..100 they stay there after decay, and none has risen |
| Proficiency.DecayTwiceIffFloored | lib/skills/proficiency.ts:92-126 | decaying twice at the same instant equals decaying once exactly when every decayed score has reached 0 |
| Proficiency.DecayNotIdempotent | lib/skills/proficiency.ts:92-126 | 60 idle for three weeks decays to 54, and a second pass gives 48 |
| Proficiency.ApplySkillDecay | lib/skills/proficiency.ts:92-126 | the loop decays every entry |
| Proficiency.NewBadgeIdsMembers | lib/skills/proficiency.ts:135-148 | a badge is new exactly when its threshold is reached and it is not already held |
| Proficiency.NewBadgesMonotone | lib/skills/proficiency.ts:135-148 | a higher proficiency earns every badge a lower one earns |
| Proficiency.NewBadgesSaturate | lib/skills/proficiency.ts:135-148 | once the new badges are added, checking again at the same proficiency earns none |
| Proficiency.NoNewBadgesWhenAllHeld | lib/skills/proficiency.ts:135-148 | when every badge is held, none is new |
| Proficiency.CheckNewBadges | lib/skills/proficiency.ts:135-148 | the loop returns the new badges in catalogue order |
| Proficiency.NewBadgeIds | lib/skills/proficiency.ts:135-148 | the reference definition of the new badges, in catalogue order; its properties are stated by the NewBadge lemmas above |
| Proficiency.CollectNewBadges | lib/skills/proficiency.ts:135-148 | the same, over any badge list |
| Proficiency.IsInterviewPrepUnlocked | lib/skills/proficiency.ts:153-155 | unlocked exactly when the proficiency reaches the green band (70) |
| Proficiency.InterviewPrepMatchesBadge | lib/skills/proficiency.ts:153-155 | the unlock coincides with earning the "Interview Ready" badge |
| Proficiency.MovedIdsMembers | lib/skills/proficiency.ts:183-189 | an id is listed exactly when its session delta moves in the given direction |
| Proficiency.SummaryClassifiesDeltas | lib/skills/proficiency.ts:183-189 | improved means a positive delta and declined a negative one, so no skill is both |
| Proficiency.FocusName | lib/skills/proficiency.ts:200-204 | a skill is named by its catalogue name when it has one, and by its id otherwise |
| Proficiency.SuggestedFocus | lib/skills/proficiency.ts:198-207 | the first declined skill comes first, then the first improved one, then the generic line |
| Proficiency.GenerateSessionSummary | lib/skills/proficiency.ts:170-219 | the summary holds the counters, the improved and declined skills, the proficiency change, the badges newly reached, and "unlocked" exactly when 70 was crossed upwards |
| Proficiency.Summarizes | lib/skills/proficiency.ts:170-219 | what a correct session summary is: the counters, the improved and declined ids, the proficiency change, the new badges and the focus suggestion |
| Proficiency.SummarizeSession | lib/skills/proficiency.ts:170-219 | the same, over any catalogue |
| Proficiency.ClassifyDeltas | lib/skills/proficiency.ts:183-189 | the loop splits the deltas into improved and declined ids |
| Proficiency.FocusSuggestion | lib/skills/proficiency.ts:198-207 | the branch picks the focus text described above |
| Proficiency.InitializeSkillProgress | lib/skills/proficiency.ts:224-231 | a fresh entry is unscored, unattempted, never practised, and shows gray |
| Proficiency.InitialProgress | lib/skills/proficiency.ts:236-242 | the initial progress has exactly the catalogue ids, each with a fresh entry |
| Proficiency.InitialProgressUnscored | lib/skills/proficiency.ts:236-242 | the initial progress has valid scores and proficiency 0 |
| Proficiency.CreateInitialProgress | lib/skills/proficiency.ts:236-242 | the loop builds the initial progress of the shipped catalogue |
| Proficiency.InitialProgressFor | lib/skills/proficiency.ts:236-242 | the same, for any catalogue |
| Proficiency.CurrentEntry | lib/skills/proficiency.ts:267 | the stored entry of a skill, or a fresh one for an unknown id |
| Proficiency.AnswerStepEffect | lib/skills/proficiency.ts:266-280 | one answered skill adds or replaces only its own entry and records its delta; other entries and other deltas are kept, and distinct delta keys stay distinct |
| Proficiency.ApplyAnswer | lib/skills/proficiency.ts:253-283 | the reference definition of an answer, one skill after another; its properties are stated by the ApplyAnswer lemmas below |
| Proficiency.ApplyAnswerKeys | lib/skills/proficiency.ts:253-283 | an answer keeps every existing entry, adds entries for unknown answered ids, records deltas for exactly the answered ids, and leaves other entries unchanged |
| Proficiency.ApplyAnswerAttempts | lib/skills/proficiency.ts:253-283 | each answered skill gains one attempt per time it is listed and is stamped with the answer time |
| Proficiency.ApplyAnswerBounds | lib/skills/proficiency.ts:253-283 | after an answer every score lies in 0..100 and every recorded delta is within -20..15 |
| Proficiency.ApplyAnswerDistinct | lib/skills/proficiency.ts:253-283 | with distinct ids, each answered skill's score is updated once, and its delta is the change in score |
| Proficiency.UpdateProgressAfterAnswer | lib/skills/proficiency.ts:253-283 | the loop computes the new progress and the deltas of an answer |
| Proficiency.AnswerSkill | lib/skills/proficiency.ts:266-280 | the loop body applies one answered skill |
| Proficiency.ScoredSkills | lib/skills/proficiency.ts:292-299 | the list holds exactly the scored catalogue skills with their scores, in catalogue order |
| Proficiency.SliceEnd | lib/skills/proficiency.ts:307 | `slice(0, limit)` keeps min(limit, length) items, and a negative limit drops that many from the end |
| Proficiency.GetSkillsNeedingAttention | lib/skills/proficiency.ts:288-309 | exactly min(`limit`, number of scored skills below 70) ids when `limit` is not negative, without duplicates, all scored below 70, in ascending score order; any skill left out scores at least as high as every listed one |
| Proficiency.LowestScored | lib/skills/proficiency.ts:288-309 | the same, over any catalogue; no duplicates when the catalogue ids are distinct |
| Proficiency.CollectScored | lib/skills/proficiency.ts:292-299 | the loop collects the scored skills |
| Proficiency.SortedKeepsScores | lib/skills/proficiency.ts:302 | sorting keeps each listed skill's score as it was in the progress |
| Proficiency.KeptAreLowScored | lib/skills/proficiency.ts:305-308 | the filtered, sliced ids are scored catalogue skills below 70, in ascending score order |
| Proficiency.SkippedScoreHigher | lib/skills/proficiency.ts:305-308 | a scored skill below 70 that is not listed scores no lower than any listed one |
| Proficiency.KeptAreAllThatFit | lib/skills/proficiency.ts:302-308 | sorting keeps the number of skills below 70, so the slice keeps as many as fit, and distinct catalogue ids stay distinct |
| Proficiency.CountBelowGreenIsFilter | lib/skills/proficiency.ts:292-306 | the number of scored skills below 70 is what the filter keeps of the scored list |
| Proficiency.UnlockedGrayIds | lib/skills/proficiency.ts:314-342 | at most one id per catalogue skill |
| Proficiency.GetUnlockedGraySkills | lib/skills/proficiency.ts:314-342 | the loop lists the unscored catalogue skills whose prerequisites are all yellow or better |
| Proficiency.CollectUnlockedGray | lib/skills/proficiency.ts:314-342 | the same, over any catalogue |
| Proficiency.AllPrerequisitesReached | lib/skills/proficiency.ts:326-333 | true exactly when every prerequisite is scored at least 40 |
| Proficiency.UnlockedGrayMember | lib/skills/proficiency.ts:314-342 | an id is listed exactly when it is an unscored catalogue skill whose prerequisites are reached |
| Proficiency.UnlockedGrayMatchesPrerequisitesMet | lib/skills/proficiency.ts:314-342 | a skill is listed exactly when it is an unscored catalogue skill for which `arePrerequisitesMet` returns true; a skill for which it would throw is not listed |
| ScoreSort.SortByScore | lib/skills/proficiency.ts:302 | the array ends sorted by ascending score and is a permutation of its input |
| ScoreSort.Insert | lib/skills/proficiency.ts:302 | one insertion step extends the sorted prefix and keeps the contents |
| ScoreSort.FilterKeepsSorted | lib/skills/proficiency.ts:305-306 | filtering a sorted list keeps it sorted |
| SkillProgressHook.LoadProgress | lib/skills/useSkillProgress.ts:56-77 | nothing stored gives nothing; otherwise missing or null fields default to empty progress, no badges and no last session |
| SkillProgressHook.AddDeltas | lib/skills/useSkillProgress.ts:175 | a missing delta counts as 0 |
| SkillProgressHook.MergeDeltasDistinct | lib/skills/useSkillProgress.ts:172-178 | merging keeps the session deltas an object with distinct keys |
| SkillProgressHook.MergeDeltasGet | lib/skills/useSkillProgress.ts:172-178 | each merged delta is the session delta plus the answer delta of that skill |
| SkillProgressHook.AccumulateDeltas | lib/skills/useSkillProgress.ts:172-178 | the loop merges the answer's deltas into the session deltas |
| SkillProgressHook.SessionDeltasAccumulate | lib/skills/useSkillProgress.ts:161-197 | after an answer, each answered skill's session delta grows by its change and every other session delta stays |
| SkillProgressHook.SkillProgressState.constructor | lib/skills/useSkillProgress.ts:109-127 | the initial state: initial progress, no badges, no session, not loaded |
| SkillProgressHook.SkillProgressState.Load | lib/skills/useSkillProgress.ts:130-140 | stored progress is loaded and decayed; with nothing stored the state is kept; either way it is marked loaded |
| SkillProgressHook.SkillProgressState.RecordAnswer | lib/skills/useSkillProgress.ts:161-197 | progress and session deltas advance by the answer, the counters by one, and badges are checked against the proficiency from before the answer |
| SkillProgressHook.SkillProgressState.ApplyAnswerToProgress | lib/skills/useSkillProgress.ts:163-181 | the progress update and the delta merge of an answer |
| SkillProgressHook.SkillProgressState.AwardBadges | lib/skills/useSkillProgress.ts:190-194 | the newly earned badges are appended |
| SkillProgressHook.SkillProgressState.StartSession | lib/skills/useSkillProgress.ts:199-207 | the counters and deltas are zeroed, and the current progress and proficiency become the baseline |
| SkillProgressHook.SkillProgressState.EndSession | lib/skills/useSkillProgress.ts:209-245 | without a session nothing changes and there is no summary; otherwise it returns the session's summary and closes the session |
| SkillProgressHook.SkillProgressState.ResetProgress | lib/skills/useSkillProgress.ts:247-257 | the state goes back to initial progress with nothing held and no session |
| HeuristicTagger.Add | scripts/tag-questions-heuristic.ts:317-370 | adding to a set keeps it duplicate-free and adds exactly that element |
| HeuristicTagger.ApplyRules | scripts/tag-questions-heuristic.ts:317-340 | the loop over the rules computes the detected skills |
| HeuristicTagger.TagQuestion | scripts/tag-questions-heuristic.ts:313-373 | the tags are the detected skills after the closure rules |
| HeuristicTagger.CloseSkills | scripts/tag-questions-heuristic.ts:344-372 | the closure steps applied in source order |
| HeuristicTagger.Tags | scripts/tag-questions-heuristic.ts:313-373 | the reference definition of a question's tags: the detected skills after the closure rules; its properties are stated by TagsAreClosed and TagsComeFromRules |
| HeuristicTagger.DetectedMembers | scripts/tag-questions-heuristic.ts:317-340 | the detected skills have no duplicates, and hold exactly select-basics plus each rule that fires: a pattern matches and no exclusion pattern does |
| HeuristicTagger.RuleIdsDistinct | scripts/tag-questions-heuristic.ts:27-307 | the 20 rules name distinct skills |
| HeuristicTagger.ExcludedSkillNotDetected | scripts/tag-questions-heuristic.ts:321-326 | a skill whose exclusion pattern matches is never detected |
| HeuristicTagger.TagsAreClosed | scripts/tag-questions-heuristic.ts:313-373 | tags always include select-basics, have no duplicates, and satisfy the four closure implications |
| HeuristicTagger.TagsComeFromRules | scripts/tag-questions-heuristic.ts:344-370 | every tag was detected or was added by a closure rule whose premise held |
| HeuristicTagger.FilterIsSubsequence | scripts/tag-questions-heuristic.ts:411-420 | a filter keeps elements in their order |
| HeuristicTagger.AdjustForDifficulty | scripts/tag-questions-heuristic.ts:378-421 | the reference definition of the difficulty filter; its property is stated by AdjustForDifficultyKeeps |
| HeuristicTagger.AdjustForDifficultyKeeps | scripts/tag-questions-heuristic.ts:378-421 | beginners keep exactly the foundational tags and intermediates the foundational and intermediate ones, in order; other levels keep every tag |
| HeuristicTagger.AssignedSkillsAreAdjustedTags | scripts/tag-questions-heuristic.ts:478-487 | the adjusted tags always contain select-basics, so the empty-list fallback never applies |
| HeuristicTagger.CountNeedingTags | scripts/tag-questions-heuristic.ts:453-455 | bounds only: no more questions need tags than there are questions, and all of them do when re-tagging is forced |
| HeuristicTagger.Retagged | scripts/tag-questions-heuristic.ts:478-487 | a processed question ends up tagged with its other fields kept |
| HeuristicTagger.Retag | scripts/tag-questions-heuristic.ts:478-487 | the loop body tags one question when it needs it |
| HeuristicTagger.TagQuestions | scripts/tag-questions-heuristic.ts:436-548 | every question ends up tagged, and the count processed is the number that needed tags |
| TableBrowser.SkipPastComma | components/TableBrowser.tsx:98 | skipping to the next comma never lengthens the input and consumes at least one character |
| TableBrowser.ParseValueTuple | components/TableBrowser.tsx:81-127 | the loop computes the values the scanner defines |
| TableBrowser.ParseFrom | components/TableBrowser.tsx:87-124 | the reference definition of the tuple scanner, one character at a time; its properties are stated by the lemmas below |
| TableBrowser.Step | components/TableBrowser.tsx:87-113 | one iteration advances and keeps the scanner's result |
| TableBrowser.SkipToComma | components/TableBrowser.tsx:93-99 | the inner loop stops at the next comma or the end |
| TableBrowser.SkipPastCommaSkips | components/TableBrowser.tsx:98 | skipping past junk and a comma lands right after that comma |
| TableBrowser.InStringAccumulates | components/TableBrowser.tsx:108-109 | inside a string, quote-free text is accumulated as it is |
| TableBrowser.ReadQuoted | components/TableBrowser.tsx:90-96 | a quoted text becomes a value at the closing quote |
| TableBrowser.QuotedValueAtComma | components/TableBrowser.tsx:90-107 | a quoted value followed by junk and a comma gives that value, and parsing resumes after the comma |
| TableBrowser.QuotedValueAtEnd | components/TableBrowser.tsx:90-99 | a quoted value at the end of the tuple gives exactly that value |
| TableBrowser.SkipPastCommaToEnd | components/TableBrowser.tsx:98 | without a comma the skip consumes the rest |
| TableBrowser.LeadingSpacesDropped | components/TableBrowser.tsx:108-112 | spaces before a value are ignored |
| TableBrowser.EmptyTokenDropped | components/TableBrowser.tsx:99-107 | an empty field gives no value |
| TableBrowser.PlainAccumulates | components/TableBrowser.tsx:108-112 | unquoted token text is accumulated as it is |
| TableBrowser.TrimEndDropsSpaces | components/TableBrowser.tsx:100 | trailing whitespace is trimmed off a token |
| TableBrowser.TrimToken | components/TableBrowser.tsx:100 | a token with trailing spaces trims to itself |
| TableBrowser.StartToken | components/TableBrowser.tsx:108-109 | a token's first character starts the accumulation |
| TableBrowser.ReadToken | components/TableBrowser.tsx:108-112 | leading spaces are skipped and the token and its trailing spaces are accumulated |
| TableBrowser.UnquotedTokenAtComma | components/TableBrowser.tsx:99-107 | an unquoted token before a comma gives NULL for "NULL" and the trimmed token otherwise |
| TableBrowser.UnquotedTokenAtEnd | components/TableBrowser.tsx:115-124 | the last unquoted token gives NULL for "NULL" and the trimmed token otherwise |
| TableBrowser.BuildRow | components/TableBrowser.tsx:68-72 | the loop builds the row object column by column |
| TableBrowser.Row | components/TableBrowser.tsx:68-72 | the reference definition of a row: each column name paired with its value, or null; stated by RowGet, RowMissing and RowPadsWithNull |
| TableBrowser.RowGet | components/TableBrowser.tsx:70-72 | a column holds the value at its position, or null past the end of the values; the last duplicate name wins |
| TableBrowser.RowMissing | components/TableBrowser.tsx:70-72 | a name that is not a column is not in the row |
| TableBrowser.RowPadsWithNull | components/TableBrowser.tsx:70-72 | with distinct column names, each column holds its value or null when the tuple is short |
| TableBrowser.ParseColumns | components/TableBrowser.tsx:31-46 | the loop collects the columns that the definition lines define |
| TableBrowser.Columns | components/TableBrowser.tsx:31-46 | the reference definition of the columns the definition lines give; stated by ColumnsFromDefinitionLines |
| TableBrowser.ColumnsFromDefinitionLines | components/TableBrowser.tsx:31-46 | a column is parsed exactly when some line is not skipped and its trimmed text matches as that column |
| TableBrowser.SkippedLineDefinesNothing | components/TableBrowser.tsx:34-36 | empty lines and FOREIGN, PRIMARY or UNIQUE constraints contribute no column |
| SkillTreeView.SkillColorAgrees | components/SkillTree.tsx:22-27 | the panel's colour function agrees with the library's and is gray exactly for no score |
| SkillTreeView.StandingMatchesColor | components/SkillTree.tsx:332-342 | for scores in 0..100 the progress-bar buckets are the colours |
| SkillTreeView.CalculateTierProgress | components/SkillTree.tsx:80-99 | the loop counts the attempted skills, the mastered skills and the total |
| SkillTreeView.CountsAreNested | components/SkillTree.tsx:266-277 | mastered ≤ attempted ≤ total, so the header's "learning" and "not started" counts are never negative |
| SkillTreeView.CountsAreBuckets | components/SkillTree.tsx:231-258 | mastered is the progress bar's mastered bucket, and attempted is its three scored buckets |
| SkillTreeView.BucketsPartition | components/SkillTree.tsx:326-344 | the four buckets add up to the number of skills |
| SkillTreeView.ComputeOverallStats | components/SkillTree.tsx:231-258 | the totals, the attempted and mastered counts, and the mean of the set scores (0 when none is set) |
| SkillTreeView.SumScoresBounded | components/SkillTree.tsx:238-249 | with valid scores, the score total lies in 0..100 times the number attempted |
| SkillTreeView.AverageScoreInRange | components/SkillTree.tsx:250 | with valid scores, the average lies in 0..100, and it is 0 when nothing is scored |
| SkillTreeView.MeanBounded | components/SkillTree.tsx:250 | a mean of values in 0..100 lies in 0..100 |
| SkillTreeView.ProgressBarCounts | components/SkillTree.tsx:326-344 | the loop counts the four buckets |
| Evaluator.FilterKeepsAll | evaluation/evaluator.ts:11-16 | a filter keeps everything exactly when all elements qualify, and nothing exactly when none does |
| Evaluator.FractionBounds | evaluation/evaluator.ts:11-16 | a fraction of a whole lies in 0..1, is 1 exactly for the whole, and is 0 exactly for none |
| Evaluator.EvaluateBasicMetrics | evaluation/evaluator.ts:4-35 | the mentions and structure scores are fractions in 0..1, and the avoidance score is 0 or 1 |
| Evaluator.MentionsRequiredMeaning | evaluation/evaluator.ts:11-16 | the score is 1 when nothing is required, 1 exactly when every required keyword is mentioned regardless of case, and 0 exactly when none is |
| Evaluator.AvoidsProblemsMeaning | evaluation/evaluator.ts:19-23 | the avoidance score is 1 exactly when no forbidden keyword appears in the lower-cased response, and 0 otherwise |
| Evaluator.HasStructureMeaning | evaluation/evaluator.ts:26-32 | the score is a third per heading found, and 1 exactly when all three headings appear |
| Evaluator.MetricsIgnoreResponseCase | evaluation/evaluator.ts:8 | lower-casing the response first changes no metric |
| Text.LowerIdempotent | evaluation/evaluator.ts:8 | lower-casing twice is lower-casing once |
| Records.PutGet | lib/skills/useSkillProgress.ts:175 | after an assignment, the key reads the new value and every other key reads as before |
| Records.PutKeys | lib/skills/useSkillProgress.ts:175 | an assignment appends a new key at the end and keeps the order of existing keys |

## Left out

- Regular expressions. The skill rules, the `CREATE TABLE` column pattern and the `INSERT` tuple pattern are abstract matchers. The model keeps the number of patterns per rule and the order in which they are tried, but not what each pattern accepts.
- Schema scanning. The model does not find the `CREATE TABLE` and `INSERT` statements in the schema text. It does not split the column text at commas, split the column names or find the tuples. The parsers take the column lines, the column names and each tuple text as inputs.
- `parseFloat`. A token that parses as a number is kept as its trimmed text (`Unquoted`). The number conversion is not modelled.
- Text handling. Lower-casing and trimming are ASCII-only, not full Unicode.
- Percentages and rounding. The bar widths, the percentage texts and `Math.round` are React rendering, which is not modelled.
- Storage. `localStorage`, `JSON.parse`/`JSON.stringify` and the save effect are I/O. `Load` takes the already-parsed stored object, or nothing when the read or the parse failed. The save is not modelled.
- React itself. State setters, memoisation and effects are not modelled. The hook's actions are class methods that update the fields at once, and the memoised values are functions of the fields.
- The tagging script's I/O. Reading and writing `questions.json`, the command-line flags and the console statistics are left out. The batch loop takes the questions as an array and the force flag as a parameter.
- Dates. Timestamps are integers in milliseconds. The ISO strings and their parsing are not modelled.
- `Array.prototype.sort`. The sort is an insertion sort, which is stable. The source's sort is also stable since ES2019, but the model proves only sortedness and permutation.
- Object key order. JavaScript orders integer-like keys before string keys. Records keep insertion order; skill ids are never integer-like.
- The advanced skill list of `adjustSkillsForDifficulty`. It is declared but never used in the source, so it is omitted.
- HeuristicTagger.AssignedSkills: the `select_basics` fallback for an empty list is modelled, but `AssignedSkillsAreAdjustedTags` shows it is dead code.
- CachedQuestion skill ids. The script writes a `skillIds` field that lib/types.ts does not declare. The model adds it as an optional field.
- TestCase fields. Only `mustMention` and `mustNotMention` are read by the keyword metrics. The other fields are omitted, and so are `evaluateWithLLM` and `fullEvaluation`, which call a language model.
- The TypeError of `arePrerequisitesMet`. When the scan reaches a prerequisite without a progress entry, the source reads `.score` of `undefined` and throws. The model returns the outcome `ThrowsTypeError` instead of unwinding the caller.
- Proficiency.DecayAll: decay is not idempotent (`DecayNotIdempotent`). Loading twice at the same instant decays twice, as the source does.
- SkillCatalogue.ValidateTree: validation only checks that references exist, not that the graph has no cycles (`ValidationIgnoresCycles`). Acyclicity of the shipped catalogue is proved separately (`SkillDefinitions.SkillTreeAcyclic`).
- Proficiency.ApplyAnswerKeys: an answered id that is not in the catalogue gets a new progress entry, as in the source.
- SkillProgressHook.SkillProgressState.RecordAnswer: badges are checked against the proficiency from before the answer, because the source reads the `progress` captured by the callback, not the updated one.
- SkillProgressHook.SkillProgressState: the `tree` field stands for `SKILL_TREE`. The constructor fixes it to the shipped catalogue.
- SkillTreeView: the panel's loops run over `SKILL_TREE`. The model's methods take the skill list as a parameter.
- `lastSessionAt`: an empty string is falsy, so loading turns `""` into null. The stored value is already optional in the model, so that case is not distinguished.
