/**
 * The rule-based question tagger: one rule of regular expressions per skill,
 * the closure rules applied after the rules, the filter by question
 * difficulty, and the tagging pass over the question cache.
 *
 * Regular expressions are not evaluated here. A rule's patterns are named by
 * skill, list and position, and whether a pattern matches a text is decided
 * by the `matches` function the caller supplies.
 */
module HeuristicTagger {
  import opened Options
  import opened Seqs
  import opened Text
  import opened SkillDefinitions

  datatype PatternList = QuestionList | HintList | ExcludeList

  /** The `index`-th regular expression in one list of the rule for `skillId`. */
  datatype Pattern = Pattern(skillId: string, list: PatternList, index: nat)

  /** Whether a pattern matches a text (`RegExp.prototype.test`). */
  type Matcher = (Pattern, string) -> bool

  /**
   * One skill rule: its skill and how many patterns each of its lists holds.
   * A rule without exclusion patterns has `excludePatterns == 0`.
   */
  datatype SkillRule = SkillRule(skillId: string, questionPatterns: nat, hintPatterns: nat, excludePatterns: nat)

  /** The rules, in the order they are tried. */
  const SkillPatterns: seq<SkillRule> := [
    SkillRule(SelectBasics, 2, 1, 0),
    SkillRule(WhereFiltering, 12, 1, 2),
    SkillRule(OrderLimit, 5, 2, 0),
    SkillRule(Aggregations, 3, 5, 1),
    SkillRule(GroupbyHaving, 5, 2, 0),
    SkillRule(BasicJoins, 6, 3, 1),
    SkillRule(MultiJoins, 4, 1, 0),
    SkillRule(SubqueriesScalar, 5, 2, 1),
    SkillRule(SubqueriesTable, 3, 2, 0),
    SkillRule(CaseStatements, 6, 1, 0),
    SkillRule(DateTime, 10, 5, 0),
    SkillRule(NullHandling, 6, 5, 0),
    SkillRule(StringFunctions, 6, 7, 0),
    SkillRule(WindowBasics, 5, 4, 0),
    SkillRule(WindowAnalytics, 7, 4, 0),
    SkillRule(RunningTotals, 5, 3, 0),
    SkillRule(SelfJoins, 6, 1, 0),
    SkillRule(CorrelatedSubqueries, 3, 3, 0),
    SkillRule(Ctes, 3, 1, 0),
    SkillRule(SetOperations, 5, 3, 0)
  ]

  /** Some exclusion pattern of the rule matches the question or the hint. */
  predicate Excluded(matches: Matcher, rule: SkillRule, question: string, hint: string) {
    exists i :: 0 <= i < rule.excludePatterns &&
      (matches(Pattern(rule.skillId, ExcludeList, i), question) || matches(Pattern(rule.skillId, ExcludeList, i), hint))
  }

  /** Some question pattern matches the question. */
  predicate QuestionMatch(matches: Matcher, rule: SkillRule, question: string) {
    exists i :: 0 <= i < rule.questionPatterns && matches(Pattern(rule.skillId, QuestionList, i), question)
  }

  /** Some hint pattern matches the hint. */
  predicate HintMatch(matches: Matcher, rule: SkillRule, hint: string) {
    exists i :: 0 <= i < rule.hintPatterns && matches(Pattern(rule.skillId, HintList, i), hint)
  }

  /** The rule assigns its skill: it is not excluded and the question or the hint matches. */
  predicate Fires(matches: Matcher, rule: SkillRule, question: string, hint: string) {
    !Excluded(matches, rule, question, hint) &&
    (QuestionMatch(matches, rule, question) || HintMatch(matches, rule, hint))
  }

  /** `Set.prototype.add` on a set kept as its insertion-ordered elements. */
  function Add(s: seq<string>, x: string): (r: seq<string>)
    ensures x in r
    ensures forall y :: y in r <==> y in s || y == x
    ensures NoDuplicates(s) ==> NoDuplicates(r)
    ensures |r| == if x in s then |s| else |s| + 1
  {
    if x in s then s else s + [x]
  }

  /** The skills after trying `rules` in order, starting from `select_basics`. */
  function Detected(matches: Matcher, rules: seq<SkillRule>, question: string, hint: string): seq<string>
  {
    if rules == [] then [SelectBasics]
    else
      var skills := Detected(matches, rules[..|rules| - 1], question, hint);
      var rule := rules[|rules| - 1];
      if Fires(matches, rule, question, hint) then Add(skills, rule.skillId) else skills
  }

  /** The closure rules applied after the skill rules. */
  function PostProcess(skills: seq<string>, hint: string): seq<string>
  {
    var withAggregations :=
      if GroupbyHaving in skills && Aggregations !in skills then Add(skills, Aggregations) else skills;
    var withJoins :=
      if MultiJoins in withAggregations then Add(withAggregations, BasicJoins) else withAggregations;
    var withWindows :=
      if (WindowAnalytics in withJoins || RunningTotals in withJoins) && WindowBasics !in withJoins
      then Add(withJoins, WindowBasics) else withJoins;
    var withSubqueries :=
      if SubqueriesTable in withWindows && SubqueriesScalar !in withWindows
      then Add(withWindows, SubqueriesScalar) else withWindows;
    if |withSubqueries| == 1 && Contains(Lower(hint), "where") then Add(withSubqueries, WhereFiltering)
    else withSubqueries
  }

  /** The skills `tagQuestion` returns for a question and its hint. */
  function Tags(matches: Matcher, question: string, hint: string): seq<string> {
    PostProcess(Detected(matches, SkillPatterns, question, hint), hint)
  }

  /** Tries the rules in order; the main loop of `tagQuestion`. */
  method ApplyRules(matches: Matcher, rules: seq<SkillRule>, question: string, hint: string) returns (skills: seq<string>)
    ensures skills == Detected(matches, rules, question, hint)
  {
    skills := [SelectBasics];
    for k := 0 to |rules|
      invariant skills == Detected(matches, rules[..k], question, hint)
    {
      assert rules[..k + 1][..k] == rules[..k];
      var rule := rules[k];
      if Excluded(matches, rule, question, hint) {
        continue;
      }
      var questionMatch := QuestionMatch(matches, rule, question);
      var hintMatch := HintMatch(matches, rule, hint);
      if questionMatch || hintMatch {
        skills := Add(skills, rule.skillId);
      }
    }
    assert rules[..|rules|] == rules;
  }

  /** `tagQuestion`: the rules, then the closure rules. */
  method TagQuestion(matches: Matcher, question: string, hint: string) returns (skills: seq<string>)
    ensures skills == Tags(matches, question, hint)
  {
    var detected := ApplyRules(matches, SkillPatterns, question, hint);
    skills := CloseSkills(detected, hint);
  }

  /** The closure rules of `tagQuestion`. */
  method CloseSkills(detected: seq<string>, hint: string) returns (skills: seq<string>)
    ensures skills == PostProcess(detected, hint)
  {
    skills := detected;
    if GroupbyHaving in skills && Aggregations !in skills {
      skills := Add(skills, Aggregations);
    }
    ghost var withAggregations := skills;
    if MultiJoins in skills {
      skills := Add(skills, BasicJoins);
    }
    ghost var withJoins := skills;
    if (WindowAnalytics in skills || RunningTotals in skills) && WindowBasics !in skills {
      skills := Add(skills, WindowBasics);
    }
    ghost var withWindows := skills;
    if SubqueriesTable in skills && SubqueriesScalar !in skills {
      skills := Add(skills, SubqueriesScalar);
    }
    ghost var withSubqueries := skills;
    if |skills| == 1 && Contains(Lower(hint), "where") {
      skills := Add(skills, WhereFiltering);
    }
    assert PostProcess(detected, hint) ==
      if |withSubqueries| == 1 && Contains(Lower(hint), "where") then Add(withSubqueries, WhereFiltering)
      else withSubqueries;
  }

  /**
   * The main loop assigns exactly `select_basics` and the skills of the rules
   * that fire, each once.
   */
  lemma {:induction false} DetectedMembers(matches: Matcher, rules: seq<SkillRule>, question: string, hint: string)
    ensures NoDuplicates(Detected(matches, rules, question, hint))
    ensures forall x :: x in Detected(matches, rules, question, hint) <==>
      x == SelectBasics || exists j :: 0 <= j < |rules| && rules[j].skillId == x && Fires(matches, rules[j], question, hint)
  {
    if rules != [] {
      var init := rules[..|rules| - 1];
      DetectedMembers(matches, init, question, hint);
      forall x | x in Detected(matches, rules, question, hint) && x != SelectBasics
        ensures exists j :: 0 <= j < |rules| && rules[j].skillId == x && Fires(matches, rules[j], question, hint)
      {
        if x in Detected(matches, init, question, hint) {
          var j :| 0 <= j < |init| && init[j].skillId == x && Fires(matches, init[j], question, hint);
          assert rules[j] == init[j];
        } else {
          assert rules[|rules| - 1].skillId == x;
        }
      }
      forall x | exists j :: 0 <= j < |rules| && rules[j].skillId == x && Fires(matches, rules[j], question, hint)
        ensures x in Detected(matches, rules, question, hint)
      {
        var j :| 0 <= j < |rules| && rules[j].skillId == x && Fires(matches, rules[j], question, hint);
        if j < |init| {
          assert init[j] == rules[j];
        }
      }
    }
  }

  /** No two rules are for the same skill. */
  lemma RuleIdsDistinct()
    ensures forall i, j :: 0 <= i < j < |SkillPatterns| ==> SkillPatterns[i].skillId != SkillPatterns[j].skillId
  {
  }

  /** A rule whose exclusion pattern matches never assigns its skill in the main loop. */
  lemma ExcludedSkillNotDetected(matches: Matcher, k: nat, question: string, hint: string)
    requires k < |SkillPatterns| && Excluded(matches, SkillPatterns[k], question, hint)
    ensures SkillPatterns[k].skillId !in Detected(matches, SkillPatterns, question, hint)
  {
    RuleIdsDistinct();
    DetectedMembers(matches, SkillPatterns, question, hint);
    assert k != 0;
    assert SkillPatterns[0].skillId == SelectBasics;
  }

  /**
   * The tags contain `select_basics`, hold no skill twice, and are closed
   * under the four implications of the closure rules.
   */
  lemma TagsAreClosed(matches: Matcher, question: string, hint: string)
    ensures var tags := Tags(matches, question, hint);
      && SelectBasics in tags
      && NoDuplicates(tags)
      && (GroupbyHaving in tags ==> Aggregations in tags)
      && (MultiJoins in tags ==> BasicJoins in tags)
      && (WindowAnalytics in tags || RunningTotals in tags ==> WindowBasics in tags)
      && (SubqueriesTable in tags ==> SubqueriesScalar in tags)
  {
    DetectedMembers(matches, SkillPatterns, question, hint);
  }

  /**
   * Apart from the closure rules, the tags are those the main loop found:
   * every tag is detected or is added by a closure rule whose premise holds.
   */
  lemma TagsComeFromRules(matches: Matcher, question: string, hint: string, x: string)
    requires x in Tags(matches, question, hint)
    ensures var detected := Detected(matches, SkillPatterns, question, hint);
      || x in detected
      || (x == Aggregations && GroupbyHaving in detected)
      || (x == BasicJoins && MultiJoins in detected)
      || (x == WindowBasics && (WindowAnalytics in detected || RunningTotals in detected))
      || (x == SubqueriesScalar && SubqueriesTable in detected)
      || (x == WhereFiltering && detected == [SelectBasics] && Contains(Lower(hint), "where"))
  {
    var detected := Detected(matches, SkillPatterns, question, hint);
    DetectedMembers(matches, SkillPatterns, question, hint);
    if |PostProcess(detected, hint)| == 1 || x == WhereFiltering {
      assert SelectBasics in detected;
      if x == WhereFiltering && x !in detected && |detected| != 1 {
        assert x in PostProcess(detected, hint);
      }
    }
  }

  const Foundational: seq<string> :=
    [SelectBasics, WhereFiltering, OrderLimit, Aggregations, GroupbyHaving, BasicJoins]

  const Intermediate: seq<string> :=
    [MultiJoins, SubqueriesScalar, SubqueriesTable, CaseStatements, DateTime, NullHandling, StringFunctions]

  /** `adjustSkillsForDifficulty` */
  function AdjustForDifficulty(skills: seq<string>, difficulty: string): seq<string> {
    if difficulty == "beginner" then Filter(s => s in Foundational, skills)
    else if difficulty == "intermediate" then Filter(s => s in Foundational || s in Intermediate, skills)
    else skills
  }

  /** `r` is `s` with some elements removed, the rest in their order. */
  predicate Subsequence(r: seq<string>, s: seq<string>)
    decreases |s|
  {
    if r == [] then true
    else if s == [] then false
    else if r[|r| - 1] == s[|s| - 1] then Subsequence(r[..|r| - 1], s[..|s| - 1])
    else Subsequence(r, s[..|s| - 1])
  }

  lemma {:induction false} FilterIsSubsequence(p: string -> bool, s: seq<string>)
    ensures Subsequence(Filter(p, s), s)
  {
    if s != [] {
      var init := s[..|s| - 1];
      FilterIsSubsequence(p, init);
      var r := Filter(p, s);
      if p(s[|s| - 1]) {
        assert r[..|r| - 1] == Filter(p, init);
      } else {
        assert r == Filter(p, init);
        if r != [] {
          assert p(r[|r| - 1]);
          assert r[|r| - 1] != s[|s| - 1];
        }
      }
    }
  }

  /**
   * Beginner questions keep only foundational skills, intermediate ones
   * foundational and intermediate skills, other difficulties everything;
   * the kept skills stay in their order.
   */
  lemma AdjustForDifficultyKeeps(skills: seq<string>, difficulty: string)
    ensures var r := AdjustForDifficulty(skills, difficulty);
      && Subsequence(r, skills)
      && (difficulty == "beginner" ==> forall x :: x in r <==> x in skills && x in Foundational)
      && (difficulty == "intermediate" ==> forall x :: x in r <==> x in skills && (x in Foundational || x in Intermediate))
      && (difficulty != "beginner" && difficulty != "intermediate" ==> r == skills)
  {
    if difficulty == "beginner" {
      FilterIsSubsequence(s => s in Foundational, skills);
    } else if difficulty == "intermediate" {
      FilterIsSubsequence(s => s in Foundational || s in Intermediate, skills);
    } else {
      SubsequenceReflexive(skills);
    }
  }

  lemma {:induction false} SubsequenceReflexive(s: seq<string>)
    ensures Subsequence(s, s)
  {
    if s != [] {
      SubsequenceReflexive(s[..|s| - 1]);
    }
  }

  /** The skills stored for a question: the adjusted tags, or `select_basics` when none remain. */
  function AssignedSkills(matches: Matcher, question: CachedQuestion): seq<string> {
    var adjusted := AdjustForDifficulty(Tags(matches, question.question, question.hint), question.difficulty);
    if |adjusted| == 0 then adjusted + [SelectBasics] else adjusted
  }

  /**
   * The difficulty filter always keeps `select_basics`, so the fallback for
   * an empty list never applies and every assignment starts from the tags.
   */
  lemma AssignedSkillsAreAdjustedTags(matches: Matcher, question: CachedQuestion)
    ensures var adjusted := AdjustForDifficulty(Tags(matches, question.question, question.hint), question.difficulty);
      && SelectBasics in adjusted
      && AssignedSkills(matches, question) == adjusted
  {
    TagsAreClosed(matches, question.question, question.hint);
    assert SelectBasics in Foundational;
    AdjustForDifficultyKeeps(Tags(matches, question.question, question.hint), question.difficulty);
  }

  /** A cached question; `skillIds` is absent until the question is tagged. */
  datatype CachedQuestion = CachedQuestion(
    id: string, difficulty: string, question: string, hint: string, generatedAt: int,
    skillIds: Option<seq<string>>)

  /** Whether the tagging pass retags the question. */
  predicate NeedsTagging(q: CachedQuestion, forceRetag: bool) {
    forceRetag || q.skillIds.None? || |q.skillIds.value| == 0
  }

  predicate IsTagged(q: CachedQuestion) {
    q.skillIds.Some? && |q.skillIds.value| > 0
  }

  /** The number of questions the pass retags. */
  function CountNeedingTags(questions: seq<CachedQuestion>, forceRetag: bool): (n: nat)
    ensures n <= |questions|
    ensures forceRetag ==> n == |questions|
  {
    if questions == [] then 0
    else
      var last := if NeedsTagging(questions[|questions| - 1], forceRetag) then 1 else 0;
      CountNeedingTags(questions[..|questions| - 1], forceRetag) + last
  }

  /** A question after the tagging pass. */
  function Retagged(matches: Matcher, q: CachedQuestion, forceRetag: bool): (r: CachedQuestion)
    ensures IsTagged(r)
    ensures r.id == q.id && r.difficulty == q.difficulty && r.question == q.question && r.hint == q.hint
  {
    if NeedsTagging(q, forceRetag) then q.(skillIds := Some(AssignedSkills(matches, q))) else q
  }

  /** One iteration of the tagging pass. */
  method Retag(matches: Matcher, q: CachedQuestion, forceRetag: bool) returns (r: CachedQuestion)
    ensures r == Retagged(matches, q, forceRetag)
  {
    r := q;
    if NeedsTagging(q, forceRetag) {
      var detected := TagQuestion(matches, q.question, q.hint);
      var adjusted := AdjustForDifficulty(detected, q.difficulty);
      if |adjusted| == 0 {
        adjusted := adjusted + [SelectBasics];
      }
      r := q.(skillIds := Some(adjusted));
    }
  }

  /**
   * The tagging pass of `main`: every question that lacks skills (every
   * question under `--force`) gets its assigned skills, the others are kept;
   * afterwards every question is tagged.
   */
  method TagQuestions(matches: Matcher, questions: array<CachedQuestion>, forceRetag: bool) returns (processed: nat)
    modifies questions
    ensures processed == CountNeedingTags(old(questions[..]), forceRetag)
    ensures forall i :: 0 <= i < questions.Length ==> questions[i] == Retagged(matches, old(questions[i]), forceRetag)
    ensures forall i :: 0 <= i < questions.Length ==> IsTagged(questions[i])
  {
    ghost var original := questions[..];
    processed := 0;
    for i := 0 to questions.Length
      invariant processed == CountNeedingTags(original[..i], forceRetag)
      invariant forall k :: 0 <= k < i ==> questions[..i][k] == Retagged(matches, original[k], forceRetag)
      invariant forall k :: i <= k < questions.Length ==> questions[k] == original[k]
    {
      assert original[..i + 1][..i] == original[..i];
      var q := questions[i];
      var r := Retag(matches, q, forceRetag);
      if NeedsTagging(q, forceRetag) {
        processed := processed + 1;
      }
      ghost var done := questions[..i];
      questions[i] := r;
      assert questions[..i] == done;
      assert questions[..i + 1] == done + [Retagged(matches, original[i], forceRetag)];
    }
    assert original[..questions.Length] == original;
  }
}
