/**
 * The fixed catalogue of SQL skills, its lookups and its referential-integrity
 * check. The catalogue lists every skill after all of its prerequisites, which
 * makes the prerequisite graph acyclic.
 */
module SkillDefinitions {
  import opened Options
  import opened Seqs
  import opened SkillTypes
  import opened SkillCatalogue

  // Skill ids.
  const SelectBasics: string := "select_basics"
  const WhereFiltering: string := "where_filtering"
  const OrderLimit: string := "order_limit"
  const Aggregations: string := "aggregations"
  const GroupbyHaving: string := "groupby_having"
  const BasicJoins: string := "basic_joins"
  const MultiJoins: string := "multi_joins"
  const SubqueriesScalar: string := "subqueries_scalar"
  const SubqueriesTable: string := "subqueries_table"
  const CaseStatements: string := "case_statements"
  const DateTime: string := "date_time"
  const NullHandling: string := "null_handling"
  const StringFunctions: string := "string_functions"
  const WindowBasics: string := "window_basics"
  const WindowAnalytics: string := "window_analytics"
  const RunningTotals: string := "running_totals"
  const SelfJoins: string := "self_joins"
  const CorrelatedSubqueries: string := "correlated_subqueries"
  const Ctes: string := "ctes"
  const SetOperations: string := "set_operations"
  const RetentionAnalysis: string := "retention_analysis"
  const CohortAnalysis: string := "cohort_analysis"
  const FunnelAnalysis: string := "funnel_analysis"
  const MomGrowth: string := "mom_growth"
  const DauMau: string := "dau_mau"
  const Attribution: string := "attribution"

  // Skill display names.
  const SelectBasicsName: string := "SELECT Basics"
  const WhereFilteringName: string := "WHERE Filtering"
  const OrderLimitName: string := "ORDER BY & LIMIT"
  const AggregationsName: string := "Aggregations"
  const GroupbyHavingName: string := "GROUP BY & HAVING"
  const BasicJoinsName: string := "Basic JOINs"
  const MultiJoinsName: string := "Multi-table JOINs"
  const SubqueriesScalarName: string := "Scalar Subqueries"
  const SubqueriesTableName: string := "Table Subqueries"
  const CaseStatementsName: string := "CASE Statements"
  const DateTimeName: string := "Date/Time Functions"
  const NullHandlingName: string := "NULL Handling"
  const StringFunctionsName: string := "String Functions"
  const WindowBasicsName: string := "Window Functions Basics"
  const WindowAnalyticsName: string := "Analytic Window Functions"
  const RunningTotalsName: string := "Running Totals & Averages"
  const SelfJoinsName: string := "Self-Joins"
  const CorrelatedSubqueriesName: string := "Correlated Subqueries"
  const CtesName: string := "CTEs (WITH Clause)"
  const SetOperationsName: string := "Set Operations"
  const RetentionAnalysisName: string := "Retention Analysis"
  const CohortAnalysisName: string := "Cohort Analysis"
  const FunnelAnalysisName: string := "Funnel Analysis"
  const MomGrowthName: string := "Month-over-Month Growth"
  const DauMauName: string := "Active Users (DAU/MAU)"
  const AttributionName: string := "Attribution Queries"

  // Skill descriptions.
  const SelectBasicsDescription: string := "Basic SELECT statements, column selection, and FROM clause usage"
  const WhereFilteringDescription: string := "Filtering rows with WHERE clause, comparison operators, AND/OR logic"
  const OrderLimitDescription: string := "Sorting results with ORDER BY and limiting output with LIMIT"
  const AggregationsDescription: string := "Aggregate functions: COUNT, SUM, AVG, MIN, MAX for summarizing data"
  const GroupbyHavingDescription: string := "Grouping rows with GROUP BY and filtering groups with HAVING"
  const BasicJoinsDescription: string := "Combining tables with INNER JOIN and LEFT JOIN on single conditions"
  const MultiJoinsDescription: string := "Joining three or more tables with complex join conditions"
  const SubqueriesScalarDescription: string := "Subqueries that return a single value, used in SELECT or WHERE"
  const SubqueriesTableDescription: string := "Subqueries in FROM clause (derived tables) and IN clauses"
  const CaseStatementsDescription: string := "Conditional logic with CASE WHEN for data transformation"
  const DateTimeDescription: string := "Date extraction, formatting, arithmetic, and filtering by date ranges"
  const NullHandlingDescription: string := "Working with NULL values: IS NULL, COALESCE, NULLIF, and NULL-safe comparisons"
  const StringFunctionsDescription: string := "String manipulation: CONCAT, SUBSTR, TRIM, UPPER/LOWER, LIKE patterns"
  const WindowBasicsDescription: string := "ROW_NUMBER, RANK, DENSE_RANK for numbering and ranking rows"
  const WindowAnalyticsDescription: string := "LAG, LEAD, FIRST_VALUE, LAST_VALUE for row comparisons"
  const RunningTotalsDescription: string := "Cumulative sums, moving averages with window frames"
  const SelfJoinsDescription: string := "Joining a table to itself for hierarchical or comparison queries"
  const CorrelatedSubqueriesDescription: string := "Subqueries that reference the outer query for row-by-row evaluation"
  const CtesDescription: string := "Common Table Expressions for readable, modular query structure"
  const SetOperationsDescription: string := "UNION, INTERSECT, EXCEPT for combining result sets"
  const RetentionAnalysisDescription: string := "Calculating user retention rates and cohort-based retention"
  const CohortAnalysisDescription: string := "Grouping users by acquisition date and tracking behavior over time"
  const FunnelAnalysisDescription: string := "Tracking conversion through multi-step user journeys"
  const MomGrowthDescription: string := "Calculating period-over-period changes and growth rates"
  const DauMauDescription: string := "Daily/monthly active user metrics and engagement ratios"
  const AttributionDescription: string := "First-touch, last-touch, and multi-touch attribution models"

  /** The skill catalogue, foundational skills first. */
  const SkillTree: seq<Skill> := [
    Skill(SelectBasics, SelectBasicsName, Foundational, [], SelectBasicsDescription),
    Skill(WhereFiltering, WhereFilteringName, Foundational, [SelectBasics], WhereFilteringDescription),
    Skill(OrderLimit, OrderLimitName, Foundational, [SelectBasics], OrderLimitDescription),
    Skill(Aggregations, AggregationsName, Foundational, [SelectBasics], AggregationsDescription),
    Skill(GroupbyHaving, GroupbyHavingName, Foundational, [Aggregations], GroupbyHavingDescription),
    Skill(BasicJoins, BasicJoinsName, Foundational, [WhereFiltering], BasicJoinsDescription),
    Skill(MultiJoins, MultiJoinsName, Intermediate, [BasicJoins, GroupbyHaving], MultiJoinsDescription),
    Skill(SubqueriesScalar, SubqueriesScalarName, Intermediate, [WhereFiltering, Aggregations], SubqueriesScalarDescription),
    Skill(SubqueriesTable, SubqueriesTableName, Intermediate, [SubqueriesScalar], SubqueriesTableDescription),
    Skill(CaseStatements, CaseStatementsName, Intermediate, [SelectBasics, WhereFiltering], CaseStatementsDescription),
    Skill(DateTime, DateTimeName, Intermediate, [WhereFiltering], DateTimeDescription),
    Skill(NullHandling, NullHandlingName, Intermediate, [WhereFiltering, BasicJoins], NullHandlingDescription),
    Skill(StringFunctions, StringFunctionsName, Intermediate, [SelectBasics], StringFunctionsDescription),
    Skill(WindowBasics, WindowBasicsName, Advanced, [GroupbyHaving, OrderLimit], WindowBasicsDescription),
    Skill(WindowAnalytics, WindowAnalyticsName, Advanced, [WindowBasics], WindowAnalyticsDescription),
    Skill(RunningTotals, RunningTotalsName, Advanced, [WindowBasics, Aggregations], RunningTotalsDescription),
    Skill(SelfJoins, SelfJoinsName, Advanced, [MultiJoins], SelfJoinsDescription),
    Skill(CorrelatedSubqueries, CorrelatedSubqueriesName, Advanced, [SubqueriesTable], CorrelatedSubqueriesDescription),
    Skill(Ctes, CtesName, Advanced, [SubqueriesTable], CtesDescription),
    Skill(SetOperations, SetOperationsName, Advanced, [SelectBasics], SetOperationsDescription),
    Skill(RetentionAnalysis, RetentionAnalysisName, Interview, [WindowAnalytics, DateTime, SelfJoins], RetentionAnalysisDescription),
    Skill(CohortAnalysis, CohortAnalysisName, Interview, [RetentionAnalysis, Ctes], CohortAnalysisDescription),
    Skill(FunnelAnalysis, FunnelAnalysisName, Interview, [WindowBasics, CaseStatements, Ctes], FunnelAnalysisDescription),
    Skill(MomGrowth, MomGrowthName, Interview, [WindowAnalytics, DateTime], MomGrowthDescription),
    Skill(DauMau, DauMauName, Interview, [DateTime, Aggregations, WindowBasics], DauMauDescription),
    Skill(Attribution, AttributionName, Interview, [WindowAnalytics, Ctes, CaseStatements], AttributionDescription)
  ]

  /** The catalogue skill with the given id, if any. */
  function GetSkillById(id: string): (r: Option<Skill>)
    ensures r.Some? ==> r.value in SkillTree && r.value.id == id
    ensures r.None? ==> forall s :: s in SkillTree ==> s.id != id
  {
    FindSkill(SkillTree, id)
  }

  /** The skills of one tier, in catalogue order. */
  function GetSkillsByTier(tier: SkillTier): (r: seq<Skill>)
    ensures forall s :: s in r <==> s in SkillTree && s.tier == tier
  {
    Filter((s: Skill) => s.tier == tier, SkillTree)
  }

  /** A skill without prerequisites. */
  predicate IsEntrySkill(s: Skill) {
    |s.prerequisites| == 0
  }

  /** `getEntrySkills`: the skills without prerequisites, in catalogue order. */
  function GetEntrySkills(): (r: seq<Skill>)
    ensures forall s :: s in r <==> s in SkillTree && s.prerequisites == []
  {
    Filter(IsEntrySkill, SkillTree)
  }

  /** The skills that list `id` as a prerequisite, in catalogue order. */
  function GetDependentSkills(id: string): (r: seq<Skill>)
    ensures forall s :: s in r <==> s in SkillTree && id in s.prerequisites
  {
    Filter((s: Skill) => id in s.prerequisites, SkillTree)
  }

  /** A prerequisite counts as met once its score reaches the yellow band. */
  predicate AtLeastYellow(score: Option<int>) {
    score.Some? && score.value >= YellowBand.min
  }

  /** The prerequisite has an entry whose score is yellow or better; a missing entry is not reached. */
  predicate PrerequisiteReached(progress: Progress, prereqId: string) {
    prereqId in progress && AtLeastYellow(progress[prereqId].score)
  }

  /**
   * How a call of `arePrerequisitesMet` ends: with a value, or with the
   * `TypeError` raised by reading `.score` of a missing entry.
   */
  datatype Outcome = Returns(value: bool) | ThrowsTypeError

  /**
   * `prerequisites.every(...)` of `arePrerequisitesMet`, scanning from the
   * left: an entry whose score is unset or below 40 stops the scan with
   * false, and a missing entry makes the callback throw.
   */
  function EveryPrerequisiteMet(prereqs: seq<string>, progress: Progress): (r: Outcome)
    ensures r == Returns(true) <==> forall k :: 0 <= k < |prereqs| ==> PrerequisiteReached(progress, prereqs[k])
    ensures r.ThrowsTypeError? <==>
      exists k :: 0 <= k < |prereqs| && prereqs[k] !in progress && ReachedBefore(prereqs, progress, k)
    ensures r == Returns(false) <==>
      exists k :: 0 <= k < |prereqs| && prereqs[k] in progress && !AtLeastYellow(progress[prereqs[k]].score) &&
        ReachedBefore(prereqs, progress, k)
  {
    if prereqs == [] then Returns(true)
    else
      var rest := prereqs[1..];
      assert forall k :: 0 < k < |prereqs| ==> prereqs[k] == rest[k - 1];
      assert forall k :: 0 < k <= |prereqs| ==> (ReachedBefore(prereqs, progress, k) <==>
        PrerequisiteReached(progress, prereqs[0]) && ReachedBefore(rest, progress, k - 1));
      if prereqs[0] !in progress then ThrowsTypeError
      else if !AtLeastYellow(progress[prereqs[0]].score) then Returns(false)
      else EveryPrerequisiteMet(rest, progress)
  }

  /** Every prerequisite before index `k` is reached. */
  predicate ReachedBefore(prereqs: seq<string>, progress: Progress, k: nat)
    requires k <= |prereqs|
  {
    forall j :: 0 <= j < k ==> PrerequisiteReached(progress, prereqs[j])
  }

  /**
   * `arePrerequisitesMet`: false for an unknown skill, otherwise the outcome
   * of the scan over its prerequisites.
   */
  function ArePrerequisitesMet(skillId: string, progress: Progress): (r: Outcome)
    ensures GetSkillById(skillId).None? ==> r == Returns(false)
    ensures GetSkillById(skillId).Some? && GetSkillById(skillId).value.prerequisites == [] ==> r == Returns(true)
    ensures r == Returns(true) <==> (GetSkillById(skillId).Some? &&
      forall p :: p in GetSkillById(skillId).value.prerequisites ==> PrerequisiteReached(progress, p))
    ensures r.ThrowsTypeError? ==> (GetSkillById(skillId).Some? &&
      exists p :: p in GetSkillById(skillId).value.prerequisites && p !in progress)
  {
    match GetSkillById(skillId)
    case None => Returns(false)
    case Some(skill) =>
      var r := EveryPrerequisiteMet(skill.prerequisites, progress);
      assert (forall p :: p in skill.prerequisites ==> PrerequisiteReached(progress, p)) <==>
        (forall k :: 0 <= k < |skill.prerequisites| ==> PrerequisiteReached(progress, skill.prerequisites[k]));
      r
  }

  /**
   * `multi_joins` requires `basic_joins` and then `groupby_having`. With
   * `basic_joins` scored 10 the scan stops with false before it reaches the
   * missing `groupby_having` entry; with no entries at all it throws.
   */
  lemma PrerequisiteScanShortCircuits()
    ensures var progress := map[BasicJoins := SkillProgress(BasicJoins, Some(10), 1, Some(0))];
      ArePrerequisitesMet(MultiJoins, progress) == Returns(false) &&
      ArePrerequisitesMet(MultiJoins, map[]) == ThrowsTypeError
  {
    var progress := map[BasicJoins := SkillProgress(BasicJoins, Some(10), 1, Some(0))];
    var prereqs := [BasicJoins, GroupbyHaving];
    MultiJoinsPrerequisites();
    assert prereqs[1..] == [GroupbyHaving];
    assert EveryPrerequisiteMet(prereqs, progress) == Returns(false);
    assert EveryPrerequisiteMet(prereqs, map[]) == ThrowsTypeError;
  }

  lemma MultiJoinsPrerequisites()
    ensures GetSkillById(MultiJoins).Some? && GetSkillById(MultiJoins).value.prerequisites == [BasicJoins, GroupbyHaving]
  {
    IdsDistinctFrom0();
    IdsDistinctFrom4();
    assert SkillTree[6].id == MultiJoins;
  }

  /** `getAllSkillIds`: the set of all catalogue ids. */
  method GetAllSkillIds() returns (ids: set<string>)
    ensures forall id :: id in ids <==> GetSkillById(id).Some?
  {
    ids := IdsOf(SkillTree);
  }

  lemma IdsDistinctFrom0()
    ensures forall i, j :: 0 <= i < 4 && i < j < |SkillTree| ==> SkillTree[i].id != SkillTree[j].id
  {
  }

  lemma IdsDistinctFrom4()
    ensures forall i, j :: 4 <= i < 9 && i < j < |SkillTree| ==> SkillTree[i].id != SkillTree[j].id
  {
  }

  lemma IdsDistinctFrom9()
    ensures forall i, j :: 9 <= i < 15 && i < j < |SkillTree| ==> SkillTree[i].id != SkillTree[j].id
  {
  }

  lemma IdsDistinctFrom15()
    ensures forall i, j :: 15 <= i < 26 && i < j < |SkillTree| ==> SkillTree[i].id != SkillTree[j].id
  {
  }

  /** Every catalogue id is distinct. */
  lemma SkillTreeIdsUnique()
    ensures UniqueIds(SkillTree)
  {
    IdsDistinctFrom0();
    IdsDistinctFrom4();
    IdsDistinctFrom9();
    IdsDistinctFrom15();
  }

  /** The lookup returns the catalogue entry of each id. */
  lemma GetSkillByIdFindsEachSkill()
    ensures forall i :: 0 <= i < |SkillTree| ==> GetSkillById(SkillTree[i].id) == Some(SkillTree[i])
  {
    SkillTreeIdsUnique();
    forall i | 0 <= i < |SkillTree|
      ensures GetSkillById(SkillTree[i].id) == Some(SkillTree[i])
    {
      FindSkillAt(SkillTree, i);
    }
  }

  lemma PrerequisitesBefore0()
    ensures ResolvedBefore(SkillTree, 0)
  {
    assert SkillTree[0].prerequisites == [];
  }

  lemma PrerequisitesBefore1()
    ensures ResolvedBefore(SkillTree, 1)
  {
    assert SkillTree[1].prerequisites == [SkillTree[0].id];
  }

  lemma PrerequisitesBefore2()
    ensures ResolvedBefore(SkillTree, 2)
  {
    assert SkillTree[2].prerequisites == [SkillTree[0].id];
  }

  lemma PrerequisitesBefore3()
    ensures ResolvedBefore(SkillTree, 3)
  {
    assert SkillTree[3].prerequisites == [SkillTree[0].id];
  }

  lemma PrerequisitesBefore4()
    ensures ResolvedBefore(SkillTree, 4)
  {
    assert SkillTree[4].prerequisites == [SkillTree[3].id];
  }

  lemma PrerequisitesBefore5()
    ensures ResolvedBefore(SkillTree, 5)
  {
    assert SkillTree[5].prerequisites == [SkillTree[1].id];
  }

  lemma PrerequisitesBefore6()
    ensures ResolvedBefore(SkillTree, 6)
  {
    assert SkillTree[6].prerequisites == [SkillTree[5].id, SkillTree[4].id];
  }

  lemma PrerequisitesBefore7()
    ensures ResolvedBefore(SkillTree, 7)
  {
    assert SkillTree[7].prerequisites == [SkillTree[1].id, SkillTree[3].id];
  }

  lemma PrerequisitesBefore8()
    ensures ResolvedBefore(SkillTree, 8)
  {
    assert SkillTree[8].prerequisites == [SkillTree[7].id];
  }

  lemma PrerequisitesBefore9()
    ensures ResolvedBefore(SkillTree, 9)
  {
    assert SkillTree[9].prerequisites == [SkillTree[0].id, SkillTree[1].id];
  }

  lemma PrerequisitesBefore10()
    ensures ResolvedBefore(SkillTree, 10)
  {
    assert SkillTree[10].prerequisites == [SkillTree[1].id];
  }

  lemma PrerequisitesBefore11()
    ensures ResolvedBefore(SkillTree, 11)
  {
    assert SkillTree[11].prerequisites == [SkillTree[1].id, SkillTree[5].id];
  }

  lemma PrerequisitesBefore12()
    ensures ResolvedBefore(SkillTree, 12)
  {
    assert SkillTree[12].prerequisites == [SkillTree[0].id];
  }

  lemma PrerequisitesBefore13()
    ensures ResolvedBefore(SkillTree, 13)
  {
    assert SkillTree[13].prerequisites == [SkillTree[4].id, SkillTree[2].id];
  }

  lemma PrerequisitesBefore14()
    ensures ResolvedBefore(SkillTree, 14)
  {
    assert SkillTree[14].prerequisites == [SkillTree[13].id];
  }

  lemma PrerequisitesBefore15()
    ensures ResolvedBefore(SkillTree, 15)
  {
    assert SkillTree[15].prerequisites == [SkillTree[13].id, SkillTree[3].id];
  }

  lemma PrerequisitesBefore16()
    ensures ResolvedBefore(SkillTree, 16)
  {
    assert SkillTree[16].prerequisites == [SkillTree[6].id];
  }

  lemma PrerequisitesBefore17()
    ensures ResolvedBefore(SkillTree, 17)
  {
    assert SkillTree[17].prerequisites == [SkillTree[8].id];
  }

  lemma PrerequisitesBefore18()
    ensures ResolvedBefore(SkillTree, 18)
  {
    assert SkillTree[18].prerequisites == [SkillTree[8].id];
  }

  lemma PrerequisitesBefore19()
    ensures ResolvedBefore(SkillTree, 19)
  {
    assert SkillTree[19].prerequisites == [SkillTree[0].id];
  }

  lemma PrerequisitesBefore20()
    ensures ResolvedBefore(SkillTree, 20)
  {
    assert SkillTree[20].prerequisites == [SkillTree[14].id, SkillTree[10].id, SkillTree[16].id];
  }

  lemma PrerequisitesBefore21()
    ensures ResolvedBefore(SkillTree, 21)
  {
    assert SkillTree[21].prerequisites == [SkillTree[20].id, SkillTree[18].id];
  }

  lemma PrerequisitesBefore22()
    ensures ResolvedBefore(SkillTree, 22)
  {
    assert SkillTree[22].prerequisites == [SkillTree[13].id, SkillTree[9].id, SkillTree[18].id];
  }

  lemma PrerequisitesBefore23()
    ensures ResolvedBefore(SkillTree, 23)
  {
    assert SkillTree[23].prerequisites == [SkillTree[14].id, SkillTree[10].id];
  }

  lemma PrerequisitesBefore24()
    ensures ResolvedBefore(SkillTree, 24)
  {
    assert SkillTree[24].prerequisites == [SkillTree[10].id, SkillTree[3].id, SkillTree[13].id];
  }

  lemma PrerequisitesBefore25()
    ensures ResolvedBefore(SkillTree, 25)
  {
    assert SkillTree[25].prerequisites == [SkillTree[14].id, SkillTree[18].id, SkillTree[9].id];
  }

  /** The catalogue lists every skill after all of its prerequisites. */
  lemma SkillTreeListedEarlier()
    ensures ListedEarlier(SkillTree)
  {
    PrerequisitesBefore0();
    PrerequisitesBefore1();
    PrerequisitesBefore2();
    PrerequisitesBefore3();
    PrerequisitesBefore4();
    PrerequisitesBefore5();
    PrerequisitesBefore6();
    PrerequisitesBefore7();
    PrerequisitesBefore8();
    PrerequisitesBefore9();
    PrerequisitesBefore10();
    PrerequisitesBefore11();
    PrerequisitesBefore12();
    PrerequisitesBefore13();
    PrerequisitesBefore14();
    PrerequisitesBefore15();
    PrerequisitesBefore16();
    PrerequisitesBefore17();
    PrerequisitesBefore18();
    PrerequisitesBefore19();
    PrerequisitesBefore20();
    PrerequisitesBefore21();
    PrerequisitesBefore22();
    PrerequisitesBefore23();
    PrerequisitesBefore24();
    PrerequisitesBefore25();
  }

  /** No skill of the catalogue requires itself, directly or through a chain. */
  lemma SkillTreeAcyclic(path: seq<nat>)
    requires IsPrerequisiteChain(SkillTree, path) && |path| >= 2
    ensures path[0] != path[|path| - 1]
  {
    SkillTreeIdsUnique();
    SkillTreeListedEarlier();
    ListedEarlierIsAcyclic(SkillTree, path);
  }

  /** `validateSkillTree`: the shipped catalogue has no dangling reference. */
  method ValidateSkillTree() returns (valid: bool, errors: seq<string>)
    ensures valid && errors == []
  {
    valid, errors := ValidateTree(SkillTree);
    SkillTreeListedEarlier();
    ListedEarlierResolves(SkillTree);
    ValidationAcceptsExactlyResolvedTrees(SkillTree);
  }

  /** Every skill has exactly one tier: the tier lists partition the catalogue. */
  lemma TiersPartitionCatalogue()
    ensures |GetSkillsByTier(Foundational)| + |GetSkillsByTier(Intermediate)|
          + |GetSkillsByTier(Advanced)| + |GetSkillsByTier(Interview)| == |SkillTree|
  {
    TierFiltersPartition(SkillTree);
  }

  lemma {:induction false} TierFiltersPartition(tree: seq<Skill>)
    ensures |Filter((s: Skill) => s.tier == Foundational, tree)| + |Filter((s: Skill) => s.tier == Intermediate, tree)|
          + |Filter((s: Skill) => s.tier == Advanced, tree)| + |Filter((s: Skill) => s.tier == Interview, tree)| == |tree|
  {
    if tree != [] {
      TierFiltersPartition(tree[..|tree| - 1]);
    }
  }
}
